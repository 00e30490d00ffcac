/** The helper's file operations (cmd/proxpass-helper/ops.go) on files as byte sequences. */
module HelperOps {
  import opened Wrappers
  import opened Framing

  const VERSION := 2

  datatype Op = Hello | ReadOp | WriteOp | TruncateOp | Quit | Unknown

  /** The request fields the modelled operations use. */
  datatype Request = Request(op: Op, path: string, offset: int, length: int, len: int, trunc: bool, version: int)

  const QUIT := Request(Quit, "", 0, 0, 0, false, 0)

  datatype Errno = NoErrno | NotExist | Perm | Other

  /** An empty `err` is success. */
  datatype Response = Response(err: string, errno: Errno, len: int, version: int)

  const OK := Response("", NoErrno, 0, 0)

  /** The container's files; opening a path in `denied` for writing is refused. */
  datatype Files = Files(content: map<string, seq<byte>>, denied: set<string>)

  function Fail(errno: Errno): Response {
    Response("failed", errno, 0, 0)
  }

  /** What a read from `offset` returns, at most `length` bytes (all of them when negative). Only a
      positive offset is sought to. */
  function Range(file: seq<byte>, offset: int, length: int): seq<byte> {
    var from := if offset <= 0 then 0 else if offset > |file| then |file| else offset;
    var end := if length < 0 || from + length >= |file| then |file| else from + length;
    file[from..end]
  }

  function Zeros(n: nat): (z: seq<byte>)
    ensures |z| == n && forall i | 0 <= i < n :: z[i] == 0
  {
    seq(n, _ => 0)
  }

  /** WriteAt: the gap before `offset` is filled with zeros; writing nothing changes nothing. */
  function Patch(file: seq<byte>, offset: nat, data: seq<byte>): seq<byte> {
    if data == [] then file
    else if offset >= |file| then file + Zeros(offset - |file|) + data
    else file[..offset] + data + (if offset + |data| < |file| then file[offset + |data|..] else [])
  }

  /** A reply with the payload that follows it, and the files afterwards. */
  datatype Served = Served(files: Files, resp: Response, payload: seq<byte>)

  function Refuse(fs: Files, errno: Errno): Served {
    Served(fs, Fail(errno), [])
  }

  function ServeRead(fs: Files, h: Request): Served {
    if h.path !in fs.content then Refuse(fs, NotExist)
    else if h.length > MAX_PAYLOAD then Refuse(fs, Other)
    else Served(fs, OK, Range(fs.content[h.path], h.offset, h.length))
  }

  /** Opening creates the file, and empties it when asked; a negative offset is refused after that. */
  function ServeWrite(fs: Files, h: Request, payload: seq<byte>): Served {
    if h.path in fs.denied then Refuse(fs, Perm)
    else
      var file := if h.trunc || h.path !in fs.content then [] else fs.content[h.path];
      if h.offset < 0 then Refuse(fs.(content := fs.content[h.path := file]), Other)
      else Served(fs.(content := fs.content[h.path := Patch(file, h.offset, payload)]), OK, [])
  }

  function ServeTruncate(fs: Files, h: Request): Served {
    if h.path !in fs.content then Refuse(fs, NotExist)
    else if h.path in fs.denied then Refuse(fs, Perm)
    else if h.offset < 0 then Refuse(fs, Other)
    else
      var file := fs.content[h.path];
      var cut := if h.offset <= |file| then file[..h.offset] else file + Zeros(h.offset - |file|);
      Served(fs.(content := fs.content[h.path := cut]), OK, [])
  }

  function Dispatch(fs: Files, m: Message<Request>): Served {
    match m.header.op
    case Hello =>
      if m.header.version != VERSION then Refuse(fs, Other) else Served(fs, OK.(version := VERSION), [])
    case ReadOp => ServeRead(fs, m.header)
    case WriteOp => ServeWrite(fs, m.header, m.payload)
    case TruncateOp => ServeTruncate(fs, m.header)
    case Quit => Served(fs, OK, [])
    case Unknown => Refuse(fs, Other)
  }

  /** The reply as it goes on the wire, with Len set to the payload's size. */
  function ReplyOf(s: Served): Message<Response> {
    Message(s.resp.(len := |s.payload|), s.payload)
  }

  // ----- What the operations do to the bytes -----

  /** `after` is `before` with `data` laid over it from `offset` on: as long as either reaches, zeros where
      neither does, and every other byte as it was. */
  predicate Overlaid(before: seq<byte>, after: seq<byte>, offset: nat, data: seq<byte>) {
    && |after| == (if offset + |data| > |before| then offset + |data| else |before|)
    && forall i | 0 <= i < |after| ::
         after[i] == if offset <= i < offset + |data| then data[i - offset] else if i < |before| then before[i] else 0
  }

  lemma PatchOverlays(file: seq<byte>, offset: nat, data: seq<byte>)
    ensures data != [] ==> Overlaid(file, Patch(file, offset, data), offset, data)
    ensures data == [] ==> Patch(file, offset, data) == file
  {
  }

  lemma RangeBytes(file: seq<byte>, offset: int, length: int)
    ensures var from, data := if offset < 0 then 0 else offset, Range(file, offset, length);
            && (forall i | 0 <= i < |data| :: from + i < |file| && data[i] == file[from + i])
            && (length >= 0 ==> |data| <= length)
            && (from + |data| < |file| ==> length >= 0 && |data| == length)
  {
  }

  /** Which bytes a read is answered with: those from the offset on, as many as asked for and as there are. */
  lemma ReadBytes(fs: Files, h: Request)
    requires h.op == ReadOp && h.path in fs.content && h.length <= 0x80_0000
    ensures var file, from := fs.content[h.path], if h.offset < 0 then 0 else h.offset;
            var data := Dispatch(fs, Message(h, [])).payload;
            && Dispatch(fs, Message(h, [])).resp == OK
            && (forall i | 0 <= i < |data| :: from + i < |file| && data[i] == file[from + i])
            && (h.length >= 0 ==> |data| <= h.length)
            && (from + |data| < |file| ==> h.length >= 0 && |data| == h.length)
  {
  }

  /** Truncating keeps what lies before the new length and fills the rest with zeros. */
  lemma TruncateBytes(fs: Files, h: Request)
    requires h.op == TruncateOp && h.path in fs.content && h.path !in fs.denied && h.offset >= 0
    ensures var d := Dispatch(fs, Message(h, []));
            && d.resp == OK && h.path in d.files.content
            && var before, after := fs.content[h.path], d.files.content[h.path];
            && |after| == h.offset
            && forall i | 0 <= i < |after| :: after[i] == if i < |before| then before[i] else 0
  {
  }

  /** A write lays its payload over the file, over an empty one when it is new or asked to be emptied. */
  lemma WriteBytes(fs: Files, h: Request, payload: seq<byte>)
    requires h.op == WriteOp && h.path !in fs.denied && h.offset >= 0
    ensures var d := Dispatch(fs, Message(h, payload));
            && d.resp == OK && h.path in d.files.content
            && var before := if h.path in fs.content && !h.trunc then fs.content[h.path] else [];
            && (payload == [] ==> d.files.content[h.path] == before)
            && (payload != [] ==> Overlaid(before, d.files.content[h.path], h.offset, payload))
  {
    PatchOverlays(if h.path in fs.content && !h.trunc then fs.content[h.path] else [], h.offset, payload);
  }

  /** Which requests are refused: a read or truncation of a file that is not there, a write or truncation
      of one that may not be opened for writing, a negative offset of either, a read of more than a
      payload holds, another version, and anything unknown. */
  lemma Refusals(fs: Files, m: Message<Request>)
    ensures var h, refused := m.header, Dispatch(fs, m).resp.err != "";
            match h.op
            case Hello => refused <==> h.version != 2
            case ReadOp => refused <==> h.path !in fs.content || h.length > 0x80_0000
            case WriteOp => refused <==> h.path in fs.denied || h.offset < 0
            case TruncateOp => refused <==> h.path !in fs.content || h.path in fs.denied || h.offset < 0
            case Quit => !refused
            case Unknown => refused
  {
  }

  /** A request touches no file but the one it names, and only a write or a truncation touches that. */
  lemma OnlyThePath(fs: Files, m: Message<Request>, path: string)
    requires path != m.header.path || m.header.op !in {WriteOp, TruncateOp}
    ensures var d := Dispatch(fs, m);
            && d.files.denied == fs.denied
            && (path in d.files.content <==> path in fs.content)
            && (path in fs.content ==> d.files.content[path] == fs.content[path])
  {
  }
}
