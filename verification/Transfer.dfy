/** Moving whole files and ranges over the helper protocol, a chunk a message
    (internal/guesthelper/client.go). */
module Transfer {
  import opened Wrappers
  import opened Framing
  import opened HelperOps
  import opened HelperClient

  const CHUNK := 0x4_0000

  datatype Ending =
    | Done
    | CallFailed(outcome: Outcome)   // the helper refused, or the transport failed
    | ReaderFailed
    | WriterFailed

  function FileOf(fs: Files, path: string): seq<byte> {
    if path in fs.content then fs.content[path] else []
  }

  function Max(a: nat, b: nat): nat {
    if a < b then b else a
  }

  /** A client with the helper at the other end. Over sound streams a call is one dispatch (EndToEnd);
      the transport may fail at any call, before or after the helper acted. */
  class Remote {
    var files: Files
    var closed: bool
    ghost var largest: nat   // the largest payload of any message, in either direction

    constructor (files: Files)
      ensures this.files == files && !closed && largest == 0
    {
      this.files, closed, largest := files, false, 0;
    }

    method Call(req: Request, payload: seq<byte>) returns (o: Outcome)
      modifies this
      ensures var d := Dispatch(old(files), Announced(req, payload));
              match o
              case AlreadyClosed => old(closed) && closed && files == old(files) && largest == old(largest)
              case Broken(_) => !old(closed) && closed && (files == old(files) || files == d.files)
              case Answered(_, _) => !old(closed) && !closed && files == d.files && o == ResultOf(ReplyOf(d))
              case Refused(_, _) => !old(closed) && !closed && files == d.files && o == ResultOf(ReplyOf(d))
      ensures largest <= Max(old(largest),
                             Max(|payload|, |Dispatch(old(files), Announced(req, payload)).payload|))
    {
      if closed {
        return AlreadyClosed;
      }
      var d := Dispatch(files, Announced(req, payload));
      largest := Max(largest, Max(|payload|, |d.payload|));
      var lost: bool := *;
      if lost {
        closed := true;
        return Broken(WriteFailed);
      }
      files := d.files;
      lost := *;
      if lost {
        closed := true;
        return Broken(UnexpectedEof);
      }
      return ResultOf(ReplyOf(d));
    }
  }

  // ----- Reading -----

  function ReadRequest(path: string, offset: int, length: int): Request {
    Request(ReadOp, path, offset, length, 0, false, 0)
  }

  function WantOf(remaining: int): (want: nat)
    ensures 0 < want <= CHUNK
    ensures remaining > 0 ==> want <= remaining
    requires remaining != 0
  {
    if 0 < remaining < CHUNK then remaining else CHUNK
  }

  function Left(remaining: int, read: nat): int {
    if remaining > 0 then remaining - read else remaining
  }

  /** What the chunked reads of one transfer deliver, one after the other. */
  function Delivered(file: seq<byte>, offset: int, remaining: int): seq<byte>
    decreases if offset <= |file| then |file| - offset else 0
  {
    if remaining == 0 then []
    else
      var want := WantOf(remaining);
      var data := Range(file, offset, want);
      if |data| < want then data
      else data + Delivered(file, offset + want, Left(remaining, want))
  }

  lemma RangeSplits(file: seq<byte>, offset: nat, want: nat, length: int)
    requires want > 0 && |Range(file, offset, want)| == want && (length < 0 || length >= want)
    ensures var left := if length >= 0 then length - want else length;
            Range(file, offset, length) == Range(file, offset, want) + Range(file, offset + want, left)
  {
    var end := if length < 0 || offset + length >= |file| then |file| else offset + length;
    SliceTwice(file, offset, offset + want, end);
  }

  lemma SliceTwice(file: seq<byte>, a: nat, b: nat, c: nat)
    requires a <= b <= c <= |file|
    ensures file[a..c] == file[a..b] + file[b..c]
  {
  }

  /** From an offset that is not negative, the chunks make up the range asked for: up to `length` bytes,
      or to the end of the file when the length is negative. */
  lemma {:induction false} DeliversRange(file: seq<byte>, offset: nat, remaining: int)
    ensures Delivered(file, offset, remaining) == Range(file, offset, remaining)
    decreases if offset <= |file| then |file| - offset else 0
  {
    if remaining != 0 {
      var want := WantOf(remaining);
      if |Range(file, offset, want)| == want {
        RangeSplits(file, offset, want, remaining);
        DeliversRange(file, offset + want, Left(remaining, want));
      }
    }
  }

  /** From an offset that is not negative the bytes delivered are the file's from there on, as many as
      asked for and as there are. */
  lemma DeliversBytes(file: seq<byte>, offset: nat, length: int)
    ensures var data := Delivered(file, offset, length);
            && (forall i | 0 <= i < |data| :: offset + i < |file| && data[i] == file[offset + i])
            && (length >= 0 ==> |data| <= length)
            && (offset + |data| < |file| ==> length >= 0 && |data| == length)
  {
    DeliversRange(file, offset, length);
    RangeBytes(file, offset, length);
  }

  /** One 1 among zeros. */
  function Marked(n: nat, at: nat): (f: seq<byte>)
    requires at < n
    ensures |f| == n && forall i | 0 <= i < n :: f[i] == (if i == at then 1 else 0)
  {
    seq(n, i => if i == at then 1 else 0)
  }

  /** A negative offset is never sought to, but counted on: every file of `n` bytes is still delivered
      as asked exactly when one call is enough. */
  lemma NegativeOffset(n: nat, offset: int, length: int)
    requires offset < 0
    ensures (forall file: seq<byte> | |file| == n :: Delivered(file, offset, length) == Range(file, offset, length))
       <==> (n < CHUNK || 0 <= length <= CHUNK)
  {
    if n < CHUNK || 0 <= length <= CHUNK {
      forall file: seq<byte> | |file| == n
        ensures Delivered(file, offset, length) == Range(file, offset, length)
      {
        OneCallEnough(file, offset, length);
      }
    } else {
      var second := if offset + CHUNK <= 0 then 0 else offset + CHUNK;
      var file := Marked(n, second);
      SecondCall(file, offset, length);
      assert Delivered(file, offset, length) != Range(file, offset, length);
    }
  }

  lemma OneCallEnough(file: seq<byte>, offset: int, length: int)
    requires offset < 0 && (|file| < CHUNK || 0 <= length <= CHUNK)
    ensures Delivered(file, offset, length) == Range(file, offset, length)
  {
    if length != 0 && |Range(file, offset, WantOf(length))| == WantOf(length) {
      assert 0 < length <= CHUNK && WantOf(length) == length;
      assert Delivered(file, offset + length, 0) == [];
    }
  }

  /** After a first full chunk the second starts before the end of the first, so a byte comes twice. */
  lemma SecondCall(file: seq<byte>, offset: int, length: int)
    requires offset < 0 && |file| >= CHUNK && (length < 0 || length > CHUNK)
    ensures var second := if offset + CHUNK <= 0 then 0 else offset + CHUNK;
            var all := Delivered(file, offset, length);
            |all| > CHUNK && all[CHUNK] == file[second]
  {
    var left := Left(length, CHUNK);
    var rest := Delivered(file, offset + CHUNK, left);
    assert WantOf(length) == CHUNK && Range(file, offset, CHUNK) == file[..CHUNK];
    assert Delivered(file, offset, length) == file[..CHUNK] + rest;
    var second := if offset + CHUNK <= 0 then 0 else offset + CHUNK;
    var data := Range(file, offset + CHUNK, WantOf(left));
    assert |data| > 0 && data[0] == file[second];
    assert data <= rest;
  }

  lemma ReadDispatch(fs: Files, path: string, offset: int, length: int)
    requires length <= MAX_PAYLOAD
    ensures var d := Dispatch(fs, Announced(ReadRequest(path, offset, length), []));
            && d.files == fs
            && ReplyOf(d) == (if path in fs.content
                              then Message(OK.(len := |d.payload|), Range(fs.content[path], offset, length))
                              else Message(Fail(NotExist), []))
  {
  }

  /** What one more chunk leaves to deliver. */
  lemma OneChunk(file: seq<byte>, at: int, remaining: int, got: seq<byte>, all: seq<byte>)
    requires remaining != 0 && all == got + Delivered(file, at, remaining)
    ensures var want := WantOf(remaining);
            var data := Range(file, at, want);
            && |data| <= want
            && got + data <= all
            && (|data| < want ==> all == got + data)
            && (|data| == want ==>
                  && at + want <= |file|
                  && all == got + data + Delivered(file, at + want, Left(remaining, want)))
  {
    var want := WantOf(remaining);
    var data := Range(file, at, want);
    if |data| == want {
      var rest := Delivered(file, at + want, Left(remaining, want));
      assert got + (data + rest) == got + data + rest;
    }
  }

  /** Asks for one chunk. */
  method ReadChunk(remote: Remote, path: string, offset: int, want: nat) returns (o: Outcome)
    requires want <= CHUNK
    modifies remote
    ensures remote.files == old(remote.files)
    ensures remote.largest <= Max(old(remote.largest), CHUNK)
    ensures o.Answered? ==>
              path in remote.files.content && o.data == Range(remote.files.content[path], offset, want)
    ensures o.Refused? ==> path !in remote.files.content && o.resp.errno == NotExist
    ensures o.Broken? || o.AlreadyClosed? ==> remote.closed
  {
    ReadDispatch(remote.files, path, offset, want);
    o := remote.Call(ReadRequest(path, offset, want), []);
  }

  /** How far a transfer still has to go at most. */
  ghost function Ahead(file: seq<byte>, at: int, remaining: int): nat {
    if remaining == 0 then 0 else if at < |file| then 1 + |file| - at else 1
  }

  lemma NextChunk(file: seq<byte>, at: int, remaining: int)
    requires remaining != 0 && at + WantOf(remaining) <= |file|
    ensures Ahead(file, at + WantOf(remaining), Left(remaining, WantOf(remaining))) < Ahead(file, at, remaining)
    ensures Left(remaining, WantOf(remaining)) == if remaining > 0 then remaining - WantOf(remaining) else remaining
  {
  }

  /** Asks for one chunk and passes it on: none of `end` when the chunk was full and more may come. */
  method PassChunk(remote: Remote, path: string, at: int, remaining: int, w: Sink, ghost all: seq<byte>)
    returns (end: Option<Ending>)
    requires remaining != 0 && all == w.sent + Delivered(FileOf(remote.files, path), at, remaining)
    modifies remote, w
    ensures remote.files == old(remote.files) && remote.largest <= Max(old(remote.largest), CHUNK)
    ensures old(w.sent) <= w.sent <= all
    ensures end.None? ==>
              var file, want := FileOf(remote.files, path), WantOf(remaining);
              && path in remote.files.content && at + want <= |file|
              && all == w.sent + Delivered(file, at + want, Left(remaining, want))
    ensures end == Some(Done) ==> w.sent == all && path in remote.files.content
    ensures end != Some(ReaderFailed)
    ensures end.Some? && end.value.CallFailed? ==>
              var o := end.value.outcome;
              && w.sent == old(w.sent) && !o.Answered? && (o.Refused? || remote.closed)
              && (o.Refused? ==> path !in remote.files.content && o.resp.errno == NotExist)
    ensures path !in remote.files.content ==> end.Some? && end.value.CallFailed?
  {
    var want := WantOf(remaining);
    OneChunk(FileOf(remote.files, path), at, remaining, w.sent, all);
    var o := ReadChunk(remote, path, at, want);
    if !o.Answered? {
      return Some(CallFailed(o));
    }
    if |o.data| > 0 {
      var ok := w.Write(o.data);
      if !ok {
        return Some(WriterFailed);
      }
    }
    assert w.sent == old(w.sent) + o.data;
    end := if |o.data| < want then Some(Done) else None;
  }

  /** Reads in chunks and passes them on; a short read ends the transfer. */
  method ReadRangeTo(remote: Remote, path: string, offset: int, length: int, w: Sink) returns (end: Ending)
    modifies remote, w
    ensures remote.files == old(remote.files)
    ensures remote.largest <= Max(old(remote.largest), CHUNK)
    ensures var all := Delivered(FileOf(remote.files, path), offset, length);
            && old(w.sent) <= w.sent <= old(w.sent) + all
            && (end == Done ==> w.sent == old(w.sent) + all && (length == 0 || path in remote.files.content))
    ensures end != ReaderFailed
    ensures end.CallFailed? ==> !end.outcome.Answered? && (end.outcome.Refused? || remote.closed)
    ensures end.CallFailed? && end.outcome.Refused? ==>
              path !in remote.files.content && end.outcome.resp.errno == NotExist
    ensures length != 0 && path !in remote.files.content ==> w.sent == old(w.sent) && end.CallFailed?
  {
    ghost var file := FileOf(remote.files, path);
    ghost var all := w.sent + Delivered(file, offset, length);
    var at, remaining := offset, length;
    while remaining != 0
      invariant remote.files == old(remote.files) && remote.largest <= Max(old(remote.largest), CHUNK)
      invariant old(w.sent) <= w.sent <= all == w.sent + Delivered(file, at, remaining)
      invariant path in remote.files.content || (w.sent == old(w.sent) && remaining == length)
      invariant length == 0 ==> remaining == 0
      decreases Ahead(file, at, remaining)
    {
      var want := WantOf(remaining);
      var stop := PassChunk(remote, path, at, remaining, w, all);
      if stop.Some? {
        return stop.value;
      }
      NextChunk(file, at, remaining);
      at := at + want;
      if remaining > 0 {
        remaining := remaining - want;
      }
    }
    return Done;
  }

  // ----- Writing -----

  datatype Status = More | AtEof | Broke

  datatype Piece = Piece(data: seq<byte>, status: Status)

  /** Everything a reader has to yield, up to its end or its failure. */
  function Whole(script: seq<Piece>): seq<byte> {
    if script == [] then []
    else script[0].data + (if script[0].status == More then Whole(script[1..]) else [])
  }

  /** Whether the reader fails before its end. */
  predicate Fails(script: seq<Piece>) {
    script != [] && (script[0].status == Broke || (script[0].status == More && Fails(script[1..])))
  }

  function Weight(script: seq<Piece>): nat {
    if script == [] then 0 else 1 + |script[0].data| + Weight(script[1..])
  }

  /** A reader that yields its content in pieces of any size, empty ones too, and may fail. */
  class Reader {
    var script: seq<Piece>

    constructor (script: seq<Piece>)
      ensures this.script == script
    {
      this.script := script;
    }

    method Read(max: nat) returns (data: seq<byte>, status: Status)
      requires max > 0
      modifies this
      ensures |data| <= max
      ensures Whole(old(script)) == data + (if status == More then Whole(script) else [])
      ensures Fails(old(script)) <==> status == Broke || (status == More && Fails(script))
      ensures status == More ==> Weight(script) < Weight(old(script))
    {
      if script == [] {
        return [], AtEof;
      }
      var p := script[0];
      if |p.data| <= max {
        script := script[1..];
        return p.data, p.status;
      }
      data, status := p.data[..max], More;
      var left := Piece(p.data[max..], p.status);
      ghost var after := if p.status == More then Whole(script[1..]) else [];
      script := [left] + script[1..];
      assert Whole(script) == left.data + after;
      assert data + (left.data + after) == p.data + after;
    }
  }

  function WriteRequest(path: string, offset: int, trunc: bool): Request {
    Request(WriteOp, path, offset, 0, 0, trunc, 0)
  }

  /** The files once `data` is written at `offset`; writing nothing sends no write. */
  function Written(fs: Files, path: string, offset: nat, data: seq<byte>): Files {
    if data == [] then fs
    else fs.(content := fs.content[path := Patch(FileOf(fs, path), offset, data)])
  }

  /** Two adjacent writes are one write of both. */
  lemma PatchTwice(file: seq<byte>, offset: nat, a: seq<byte>, b: seq<byte>)
    ensures Patch(Patch(file, offset, a), offset + |a|, b) == Patch(file, offset, a + b)
  {
    if a == [] {
      assert a + b == b;
    } else if b == [] {
      assert a + b == a;
    } else if offset >= |file| {
      var gap := Zeros(offset - |file|);
      assert Zeros(0) == [];
      assert file + gap + a + [] + b == file + gap + (a + b);
    } else {
      PatchInside(file, offset, a, b);
    }
  }

  lemma PatchInside(file: seq<byte>, offset: nat, a: seq<byte>, b: seq<byte>)
    requires offset < |file| && a != [] && b != []
    ensures Patch(Patch(file, offset, a), offset + |a|, b) == Patch(file, offset, a + b)
  {
    var tail := if offset + |a| < |file| then file[offset + |a|..] else [];
    var one := file[..offset] + a + tail;
    assert Patch(file, offset, a) == one && one[..offset + |a|] == file[..offset] + a;
    assert file[..offset] + a + b == file[..offset] + (a + b);
    if |b| < |tail| {
      assert one[offset + |a| + |b|..] == tail[|b|..] == file[offset + |a + b|..];
    } else {
      assert Zeros(0) == [];
    }
  }

  lemma WrittenTwice(fs: Files, path: string, offset: nat, a: seq<byte>, b: seq<byte>)
    ensures Written(Written(fs, path, offset, a), path, offset + |a|, b) == Written(fs, path, offset, a + b)
  {
    PatchTwice(FileOf(fs, path), offset, a, b);
    if a == [] {
      assert a + b == b;
    } else if b == [] {
      assert a + b == a;
    }
  }

  /** One write message. */
  method WriteChunk(remote: Remote, path: string, offset: int, trunc: bool, data: seq<byte>) returns (o: Outcome)
    requires |data| <= CHUNK
    modifies remote
    ensures remote.largest <= Max(old(remote.largest), CHUNK)
    ensures remote.files.denied == old(remote.files.denied)
    ensures var d := ServeWrite(old(remote.files), WriteRequest(path, offset, trunc), data);
            && (remote.files == old(remote.files) || remote.files == d.files)
            && (o.Answered? ==> remote.files == d.files && path !in remote.files.denied && offset >= 0)
            && (o.Refused? ==> path in remote.files.denied || offset < 0)
    ensures o.Broken? || o.AlreadyClosed? ==> remote.closed
  {
    assert Dispatch(remote.files, Announced(WriteRequest(path, offset, trunc), data))
        == ServeWrite(remote.files, WriteRequest(path, offset, trunc), data);
    o := remote.Call(WriteRequest(path, offset, trunc), data);
  }

  lemma OneMoreWrite(fs: Files, before: Files, path: string, offset: nat, written: seq<byte>, data: seq<byte>)
    requires before == Written(fs, path, offset, written) && data != []
    ensures var d := ServeWrite(before, WriteRequest(path, offset + |written|, false), data);
            d.files == (if path in before.denied then before else Written(fs, path, offset, written + data))
  {
    WrittenTwice(fs, path, offset, written, data);
  }

  /** Writes the next chunk of a transfer; `acted` says whether the helper carried the write out. */
  method WriteNext(remote: Remote, path: string, offset: int, data: seq<byte>,
                   ghost fs: Files, ghost written: seq<byte>, at: int)
    returns (o: Outcome, ghost acted: bool)
    requires 0 < |data| <= CHUNK && at == offset + |written|
    requires offset >= 0 ==> remote.files == Written(fs, path, offset, written)
    requires offset < 0 ==> written == []
    modifies remote
    ensures remote.largest <= Max(old(remote.largest), CHUNK)
    ensures remote.files.denied == old(remote.files.denied)
    ensures offset >= 0 ==> remote.files == Written(fs, path, offset, if acted then written + data else written)
    ensures o.Answered? ==> acted && offset >= 0
    ensures o.Refused? ==> path in remote.files.denied || offset < 0
    ensures o.Broken? || o.AlreadyClosed? ==> remote.closed
  {
    ghost var before := remote.files;
    if offset >= 0 {
      OneMoreWrite(fs, before, path, offset, written, data);
    }
    o := WriteChunk(remote, path, at, false, data);
    acted := o.Answered? || remote.files != before;
  }

  lemma ReadOn(written: seq<byte>, data: seq<byte>, rest: seq<byte>)
    ensures written + (data + rest) == written + data + rest
    ensures written <= written + data <= written + (data + rest)
    ensures data == [] ==> data + rest == rest
    ensures rest == [] ==> written + (data + rest) == written + data
  {
  }

  /** Writes what the reader yields from `offset` on. `written` is what of it reached the file. */
  method WriteAtFrom(remote: Remote, path: string, offset: int, r: Reader)
    returns (end: Ending, ghost written: seq<byte>)
    modifies remote, r
    ensures remote.largest <= Max(old(remote.largest), CHUNK)
    ensures remote.files.denied == old(remote.files.denied)
    ensures written <= Whole(old(r.script))
    ensures offset >= 0 ==> remote.files == Written(old(remote.files), path, offset, written)
    ensures offset >= 0 && written != [] ==>
              path in remote.files.content
              && Overlaid(FileOf(old(remote.files), path), remote.files.content[path], offset, written)
    ensures offset >= 0 ==> SameElsewhere(old(remote.files), remote.files, path)
    ensures offset >= 0 && written == [] ==> remote.files == old(remote.files)
    ensures end == Done || end == ReaderFailed ==> written == Whole(old(r.script))
    ensures end == Done ==> !Fails(old(r.script)) && (offset >= 0 || written == [])
    ensures end == ReaderFailed ==> Fails(old(r.script))
    ensures end.CallFailed? && end.outcome.Refused? ==> path in old(remote.files.denied) || offset < 0
    ensures end != WriterFailed
    ensures end.CallFailed? ==> !end.outcome.Answered? && (end.outcome.Refused? || remote.closed)
  {
    end, written := WriteChunks(remote, path, offset, r);
    if offset >= 0 {
      WrittenBytes(old(remote.files), path, offset, written);
    }
  }

  /** Every other path is as it was. */
  ghost predicate SameElsewhere(before: Files, after: Files, path: string) {
    forall p | p != path :: (p in after.content <==> p in before.content)
                            && (p in before.content ==> after.content[p] == before.content[p])
  }

  lemma WrittenBytes(fs: Files, path: string, offset: nat, data: seq<byte>)
    ensures SameElsewhere(fs, Written(fs, path, offset, data), path)
    ensures data != [] ==>
              var after := Written(fs, path, offset, data).content;
              path in after && Overlaid(FileOf(fs, path), after[path], offset, data)
  {
    PatchOverlays(FileOf(fs, path), offset, data);
  }

  /** The loop over the reader. */
  method WriteChunks(remote: Remote, path: string, offset: int, r: Reader)
    returns (end: Ending, ghost written: seq<byte>)
    modifies remote, r
    ensures remote.largest <= Max(old(remote.largest), CHUNK)
    ensures remote.files.denied == old(remote.files.denied)
    ensures written <= Whole(old(r.script))
    ensures offset >= 0 ==> remote.files == Written(old(remote.files), path, offset, written)
    ensures end == Done || end == ReaderFailed ==> written == Whole(old(r.script))
    ensures end == Done ==> !Fails(old(r.script)) && (offset >= 0 || written == [])
    ensures end == ReaderFailed ==> Fails(old(r.script))
    ensures end.CallFailed? && end.outcome.Refused? ==> path in old(remote.files.denied) || offset < 0
    ensures end != WriterFailed
    ensures end.CallFailed? ==> !end.outcome.Answered? && (end.outcome.Refused? || remote.closed)
  {
    written := [];
    var at := offset;
    ghost var fs, whole := remote.files, Whole(r.script);
    while true
      invariant remote.largest <= Max(old(remote.largest), CHUNK) && remote.files.denied == fs.denied
      invariant whole == written + Whole(r.script) && (Fails(old(r.script)) <==> Fails(r.script))
      invariant at == offset + |written| && (offset < 0 ==> written == [])
      invariant offset >= 0 ==> remote.files == Written(fs, path, offset, written)
      decreases Weight(r.script)
    {
      var data, status := r.Read(CHUNK);
      ReadOn(written, data, if status == More then Whole(r.script) else []);
      if |data| > 0 {
        var o, acted := WriteNext(remote, path, offset, data, fs, written, at);
        if !o.Answered? {
          return CallFailed(o), if acted && offset >= 0 then written + data else written;
        }
        written := written + data;
        at := at + |data|;
      }
      if status == AtEof {
        return Done, written;
      }
      if status == Broke {
        return ReaderFailed, written;
      }
    }
  }

  /** Replaces the file by what the reader yields. The first write is unconditional, so that a reader
      that yields nothing still leaves an empty file. */
  method WriteFrom(remote: Remote, path: string, r: Reader) returns (end: Ending, ghost written: seq<byte>)
    modifies remote, r
    ensures remote.largest <= Max(old(remote.largest), CHUNK)
    ensures written <= Whole(old(r.script))
    ensures var fs := old(remote.files);
            remote.files == fs || remote.files == fs.(content := fs.content[path := written])
    ensures end == Done ==>
              && remote.files == old(remote.files).(content := old(remote.files.content)[path := Whole(old(r.script))])
              && !Fails(old(r.script))
    ensures end == ReaderFailed ==> Fails(old(r.script))
    ensures end.CallFailed? && end.outcome.Refused? ==> path in old(remote.files.denied)
    ensures end != WriterFailed
    ensures end.CallFailed? ==> !end.outcome.Answered? && (end.outcome.Refused? || remote.closed)
  {
    ghost var fs := remote.files;
    var data, status := r.Read(CHUNK);
    written := data;
    if status == Broke {
      return ReaderFailed, written;
    }
    assert Patch([], 0, data) == data;
    var o := WriteChunk(remote, path, 0, true, data);
    if !o.Answered? {
      return CallFailed(o), written;
    }
    if status == AtEof {
      assert data + [] == data;
      return Done, written;
    }
    ghost var more: seq<byte>;
    end, more := WriteAtFrom(remote, path, |data|, r);
    written := data + more;
    AppendsTo(fs, path, data, more);
  }

  lemma AppendsTo(fs: Files, path: string, data: seq<byte>, more: seq<byte>)
    ensures Written(fs.(content := fs.content[path := data]), path, |data|, more)
         == fs.(content := fs.content[path := data + more])
  {
    assert data + [] == data;
    assert fs.content[path := data][path := data + more] == fs.content[path := data + more];
  }
}
