/** The helper process: its request loop and what serving a stream of requests amounts to
    (cmd/proxpass-helper/main.go). */
module HelperServer {
  import opened Wrappers
  import opened Framing
  import opened HelperOps
  import opened HelperClient

  /** Serving a stream of requests: the files afterwards, the replies, what is left of the stream, and
      whether serving ended well (a quit, or the end of the stream) or on a bad message. */
  datatype Service = Service(files: Files, replies: seq<Message<Response>>, rest: seq<byte>, end: Result<(), Error>)

  function Serve(c: Codecs, fs: Files, input: seq<byte>): Service
    decreases |input|
  {
    match MessageOf(c.req, input)
    case Failed(e) => Service(fs, [], [], if e == Eof then Ok(()) else Err(e))
    case Got(m, rest) =>
      MessageShrinks(c.req, input);
      if m.header.op == Quit then Service(fs, [], rest, Ok(()))
      else
        var d := Dispatch(fs, m);
        var more := Serve(c, d.files, rest);
        Service(more.files, [ReplyOf(d)] + more.replies, more.rest, more.end)
  }

  /** Where serving stands: the files as they are, and what is left of the stream. */
  datatype Stand = Stand(files: Files, rest: seq<byte>)

  /** One request carried out. */
  function ServedOne(c: Codecs, at: Stand): Stand {
    match MessageOf(c.req, at.rest)
    case Failed(_) => at
    case Got(m, rest) => if m.header.op == Quit then at else Stand(Dispatch(at.files, m).files, rest)
  }

  /** The first `n` requests carried out. */
  function ServedFirst(c: Codecs, at: Stand, n: nat): Stand {
    if n == 0 then at else ServedOne(c, ServedFirst(c, at, n - 1))
  }

  /** The answers to a list of requests, each on the files the earlier ones left. */
  function Answers(fs: Files, ms: seq<Message<Request>>): Service
    decreases |ms|
  {
    if ms == [] then Service(fs, [], [], Ok(()))
    else
      var d := Dispatch(fs, ms[0]);
      var more := Answers(d.files, ms[1..]);
      Service(more.files, [ReplyOf(d)] + more.replies, [], Ok(()))
  }

  predicate Requests(c: Codecs, ms: seq<Message<Request>>) {
    forall i | 0 <= i < |ms| :: Sound(c.req, ms[i]) && ms[i].header.op != Quit
  }

  lemma {:induction false} ServeAnswers(c: Codecs, fs: Files, ms: seq<Message<Request>>)
    requires FaithfulCodecs(c) && Requests(c, ms)
    ensures Serve(c, fs, Frames(c.req, ms)) == Answers(fs, ms)
    decreases |ms|
  {
    if ms != [] {
      ReadBack(c.req, ms[0], Frames(c.req, ms[1..]));
      ServeAnswers(c, Dispatch(fs, ms[0]).files, ms[1..]);
    }
  }

  /** The helper takes a request cut short for the end of the session exactly when it is cut at the start,
      after the length or after the header; cut anywhere else it reports an error. */
  lemma TruncatedServe(c: Codecs, fs: Files, m: Message<Request>, k: nat)
    requires FaithfulCodecs(c) && Sound(c.req, m) && k < |FrameBytes(c.req, m)|
    ensures var service := Serve(c, fs, FrameBytes(c.req, m)[..k]);
            && service.files == fs && service.replies == []
            && service.end == if AtBoundary(c.req, m, k) then Ok(()) else Err(UnexpectedEof)
  {
    TruncatedFails(c.req, m, k);
  }

  /** Both ends over sound streams: the results of the calls are the dispatch of the requests, one by
      one on the files the earlier ones left. */
  lemma EndToEnd(c: Codecs, fs: Files, ms: seq<Message<Request>>, accepted: seq<nat>, sent: seq<byte>)
    requires FaithfulCodecs(c) && Requests(c, ms) && |accepted| == |ms|
    requires forall i | 0 <= i < |ms| :: accepted[i] >= |FrameBytes(c.req, ms[i])|
    requires AllSound(c.resp, Answers(fs, ms).replies)
    ensures var service := Serve(c, fs, Frames(c.req, ms));
            var s := Calls(c, Wire(false, sent, Stream(c.resp, Answers(fs, ms).replies)), ms, accepted);
            && service == Answers(fs, ms)
            && s.wire == Wire(false, sent + Frames(c.req, ms), [])
            && |service.replies| == |ms|
            && forall k | 0 <= k < |ms| :: s.outcomes[k] == ResultOf(service.replies[k])
  {
    ServeAnswers(c, fs, ms);
    AnswersLength(fs, ms);
    SoundCalls(c, ms, Answers(fs, ms).replies, accepted, sent);
  }

  /** One call that is taken whole and answered by a sound reply. */
  lemma SoundCall(c: Codecs, sent: seq<byte>, m: Message<Request>, accepted: nat, reply: Message<Response>, rest: seq<byte>)
    requires FaithfulCodecs(c) && Sound(c.req, m) && Sound(c.resp, reply) && accepted >= |FrameBytes(c.req, m)|
    ensures CallOf(c, Wire(false, sent, FrameBytes(c.resp, reply) + rest), m, accepted)
            == Called(Wire(false, sent + FrameBytes(c.req, m), rest), ResultOf(reply))
  {
    ReadBack(c.resp, reply, rest);
  }

  function Results(replies: seq<Message<Response>>): (outcomes: seq<Outcome>)
    ensures |outcomes| == |replies|
  {
    seq(|replies|, i requires 0 <= i < |replies| => ResultOf(replies[i]))
  }

  lemma FirstSound(c: Codecs, ms: seq<Message<Request>>, replies: seq<Message<Response>>)
    requires Requests(c, ms) && AllSound(c.resp, replies) && ms != [] && replies != []
    ensures Sound(c.req, ms[0]) && Requests(c, ms[1..]) && Sound(c.resp, replies[0]) && AllSound(c.resp, replies[1..])
    ensures Stream(c.resp, replies) == FrameBytes(c.resp, replies[0]) + Stream(c.resp, replies[1..])
  {
  }

  lemma CallsFirst(c: Codecs, w: Wire, ms: seq<Message<Request>>, accepted: seq<nat>, w': Wire,
                   replies: seq<Message<Response>>)
    requires |accepted| == |ms| == |replies| > 0
    requires CallOf(c, w, ms[0], accepted[0]) == Called(w', ResultOf(replies[0]))
    requires Calls(c, w', ms[1..], accepted[1..]).outcomes == Results(replies[1..])
    ensures Calls(c, w, ms, accepted) == HelperClient.Session(Calls(c, w', ms[1..], accepted[1..]).wire, Results(replies))
  {
    assert [ResultOf(replies[0])] + Results(replies[1..]) == Results(replies);
  }

  /** A sound reply for each request: the calls return the replies, one by one, and the stream is used up. */
  lemma {:induction false} SoundCalls(c: Codecs, ms: seq<Message<Request>>, replies: seq<Message<Response>>,
                                      accepted: seq<nat>, sent: seq<byte>)
    requires FaithfulCodecs(c) && Requests(c, ms) && |accepted| == |ms| == |replies| && AllSound(c.resp, replies)
    requires forall i | 0 <= i < |ms| :: accepted[i] >= |FrameBytes(c.req, ms[i])|
    ensures Calls(c, Wire(false, sent, Stream(c.resp, replies)), ms, accepted)
            == Session(Wire(false, sent + Frames(c.req, ms), []), Results(replies))
    decreases |ms|
  {
    if ms == [] {
      assert sent + [] == sent;
    } else {
      var sent', rest := sent + FrameBytes(c.req, ms[0]), Stream(c.resp, replies[1..]);
      FirstSound(c, ms, replies);
      SoundCall(c, sent, ms[0], accepted[0], replies[0], rest);
      SoundCalls(c, ms[1..], replies[1..], accepted[1..], sent');
      Associate(sent, FrameBytes(c.req, ms[0]), Frames(c.req, ms[1..]));
      CallsFirst(c, Wire(false, sent, Stream(c.resp, replies)), ms, accepted, Wire(false, sent', rest), replies);
    }
  }

  lemma {:induction false} AnswersLength(fs: Files, ms: seq<Message<Request>>)
    ensures |Answers(fs, ms).replies| == |ms|
    decreases |ms|
  {
    if ms != [] {
      AnswersLength(Dispatch(fs, ms[0]).files, ms[1..]);
    }
  }

  /** One more request carried out. */
  lemma OneMoreServed(c: Codecs, at: Stand, n: nat, m: Message<Request>, rest: seq<byte>)
    requires MessageOf(c.req, ServedFirst(c, at, n).rest) == Got(m, rest) && m.header.op != Quit
    ensures ServedFirst(c, at, n + 1) == Stand(Dispatch(ServedFirst(c, at, n).files, m).files, rest)
  {
  }

  // ----- The request loop as the program has it -----

  lemma {:induction false} LastFrame(c: Codec<Response>, ms: seq<Message<Response>>, m: Message<Response>)
    ensures Frames(c, ms + [m]) == Frames(c, ms) + FrameBytes(c, m)
    decreases |ms|
  {
    var all := ms + [m];
    if ms == [] {
      assert all == [m] && all[1..] == [];
      NoBytes(FrameBytes(c, m));
    } else {
      assert all[0] == ms[0] && all[1..] == ms[1..] + [m];
      LastFrame(c, ms[1..], m);
      Associate(FrameBytes(c, ms[0]), Frames(c, ms[1..]), FrameBytes(c, m));
    }
  }

  lemma NoBytes(a: seq<byte>)
    ensures a + [] == a && [] + a == a
  {
  }

  class Session {
    const codecs: Codecs
    const input: Source
    const output: Sink
    var files: Files

    constructor (codecs: Codecs, input: Source, output: Sink, files: Files)
      ensures this.codecs == codecs && this.input == input && this.output == output && this.files == files
    {
      this.codecs, this.input, this.output, this.files := codecs, input, output, files;
    }

    /** One turn of the reader: a header and the payload it announces. */
    method Next() returns (m: Result<Message<Request>, Error>)
      modifies input
      ensures match MessageOf(codecs.req, old(input.rest))
              case Got(v, rest) => m == Ok(v) && input.rest == rest
              case Failed(e) => m == Err(e)
    {
      var h := ReadHeader(input, codecs.req);
      if h.Err? {
        return Err(h.error);
      }
      if codecs.req.len(h.value) <= 0 {
        return Ok(Message(h.value, []));
      }
      var p := ReadPayload(input, codecs.req.len(h.value));
      return if p.Err? then Err(p.error) else Ok(Message(h.value, p.value));
    }

    /** Carries out one request and writes its reply. */
    method Answer(m: Message<Request>) returns (written: Result<(), Error>)
      modifies this`files, output
      ensures var d := Dispatch(old(files), m);
              var frames := old(output.sent) + FrameBytes(codecs.resp, ReplyOf(d));
              && files == d.files
              && old(output.sent) <= output.sent <= frames
              && (written.Ok? ==> output.sent == frames)
    {
      var d := Dispatch(files, m);
      files := d.files;
      written := WriteMessage(output, codecs.resp, ReplyOf(d));
      assert output.sent + [] == output.sent;
    }

    /** One turn of the loop: none of `end` when it goes on. `start` is what had been sent before the
        loop, and `first` where serving stood. */
    method Turn(ghost all: Service, ghost answered: seq<Message<Response>>, ghost start: seq<byte>, ghost first: Stand)
      returns (end: Option<Result<(), Error>>, ghost answered': seq<Message<Response>>, ghost failed: bool)
      requires Progress(codecs, all, files, input.rest, answered)
      requires output.sent == start + Frames(codecs.resp, answered)
      requires Stand(files, input.rest) == ServedFirst(codecs, first, |answered|)
      modifies this`files, input, output
      ensures answered' <= all.replies && Wrote(codecs.resp, start, output.sent, answered', failed)
      ensures |answered'| <= |answered| + 1 && (end.None? ==> |answered'| == |answered| + 1)
      ensures end.None? ==> !failed && |input.rest| < |old(input.rest)|
      ensures end.None? || failed ==> Progress(codecs, all, files, input.rest, answered')
      ensures end.None? || failed ==>
                |answered'| == |answered| + 1 && Stand(files, input.rest) == ServedFirst(codecs, first, |answered'|)
      ensures end.Some? && !failed ==>
                answered' == answered == all.replies && files == all.files && end.value == all.end
      ensures failed ==> end.Some? && end.value.Err?
    {
      failed, answered' := false, answered;
      OneTurn(codecs, all, files, input.rest, answered);
      var m := Next();
      if m.Err? {
        return Some(if m.error == Eof then Ok(()) else Err(m.error)), answered', failed;
      }
      if m.value.header.op == Quit {
        return Some(Ok(())), answered', failed;
      }
      ghost var reply := ReplyOf(Dispatch(files, m.value));
      OneMoreServed(codecs, first, |answered|, m.value, input.rest);
      var written := Answer(m.value);
      answered', failed := answered + [reply], written.Err?;
      MoreFrames(codecs.resp, start, answered, reply);
      end := if written.Err? then Some(Err(written.error)) else None;
    }

    /** Dispatches requests and writes their replies until the stream ends, a quit arrives, a write
        fails, or the timer, which every completed exchange resets, runs out: `inTime` requests arrive
        before it does. `answered` are the replies whose requests were carried out. */
    method Run(inTime: nat) returns (r: Result<(), Error>, ghost answered: seq<Message<Response>>, ghost end: Ending)
      modifies this`files, input, output
      ensures Ended(codecs, Serve(codecs, old(files), old(input.rest)), files, input.rest, answered, r, end)
      ensures end != Finished ==>
                Stand(files, input.rest) == ServedFirst(codecs, Stand(old(files), old(input.rest)), |answered|)
      ensures |answered| <= inTime && (end == Finished ==> |answered| < inTime) && (end == TimedOut ==> |answered| == inTime)
      ensures Wrote(codecs.resp, old(output.sent), output.sent, answered, end == ReplyLost)
    {
      answered, end := [], Finished;
      ghost var all, start, first := Serve(codecs, files, input.rest), output.sent, Stand(files, input.rest);
      var n := 0;
      while true
        invariant n == |answered| <= inTime
        invariant output.sent == start + Frames(codecs.resp, answered)
        invariant Progress(codecs, all, files, input.rest, answered)
        invariant Stand(files, input.rest) == ServedFirst(codecs, first, n)
        decreases |input.rest|
      {
        if n == inTime {
          ProgressPrefix(codecs, all, files, input.rest, answered);
          return Ok(()), answered, TimedOut;
        }
        var stop;
        ghost var failed;
        stop, answered, failed := Turn(all, answered, start, first);
        if stop.Some? {
          end := if failed then ReplyLost else Finished;
          return stop.value, answered, end;
        }
        n := n + 1;
      }
    }
  }

  /** How the loop ends. */
  datatype Ending = Finished | TimedOut | ReplyLost

  /** What has been sent since `start` is the frames of the replies, or a part of them when the last
      one was lost. */
  predicate Wrote(c: Codec<Response>, start: seq<byte>, sent: seq<byte>, answered: seq<Message<Response>>, lost: bool) {
    && start <= sent <= start + Frames(c, answered)
    && (!lost ==> sent == start + Frames(c, answered))
  }

  /** What the loop leaves of all that serving the stream would amount to. */
  predicate Ended(c: Codecs, all: Service, files: Files, rest: seq<byte>, answered: seq<Message<Response>>,
                  r: Result<(), Error>, end: Ending)
  {
    && answered <= all.replies
    && match end
       case Finished => r == all.end && files == all.files && answered == all.replies
       case TimedOut => r == Ok(()) && Progress(c, all, files, rest, answered)
       case ReplyLost => r.Err? && Progress(c, all, files, rest, answered)
  }

  /** What is answered so far and what serving the rest would answer make up the whole. */
  predicate Progress(c: Codecs, all: Service, fs: Files, rest: seq<byte>, answered: seq<Message<Response>>) {
    var more := Serve(c, fs, rest);
    all == more.(replies := answered + more.replies)
  }

  lemma OneTurn(c: Codecs, all: Service, fs: Files, rest: seq<byte>, answered: seq<Message<Response>>)
    requires Progress(c, all, fs, rest, answered)
    ensures answered <= all.replies
    ensures match MessageOf(c.req, rest)
            case Failed(e) =>
              all.files == fs && all.replies == answered && all.end == (if e == Eof then Ok(()) else Err(e))
            case Got(m, rest') =>
              if m.header.op == Quit then all.files == fs && all.replies == answered && all.end == Ok(())
              else
                var d := Dispatch(fs, m);
                && |rest'| < |rest|
                && answered + [ReplyOf(d)] <= all.replies
                && Progress(c, all, d.files, rest', answered + [ReplyOf(d)])
  {
    MessageShrinks(c.req, rest);
    match MessageOf(c.req, rest) {
      case Failed(_) =>
        assert answered + [] == answered;
      case Got(m, rest') =>
        if m.header.op == Quit {
          assert answered + [] == answered;
        } else {
          var d := Dispatch(fs, m);
          var more := Serve(c, d.files, rest').replies;
          assert answered + ([ReplyOf(d)] + more) == answered + [ReplyOf(d)] + more;
        }
    }
  }

  lemma ProgressPrefix(c: Codecs, all: Service, fs: Files, rest: seq<byte>, answered: seq<Message<Response>>)
    requires Progress(c, all, fs, rest, answered)
    ensures answered <= all.replies
  {
  }

  lemma MoreFrames(c: Codec<Response>, start: seq<byte>, ms: seq<Message<Response>>, m: Message<Response>)
    ensures start + Frames(c, ms + [m]) == start + Frames(c, ms) + FrameBytes(c, m)
    ensures start <= start + Frames(c, ms)
  {
    LastFrame(c, ms, m);
    Associate(start, Frames(c, ms), FrameBytes(c, m));
  }

  lemma Associate(a: seq<byte>, b: seq<byte>, c: seq<byte>)
    ensures a + (b + c) == a + b + c && a <= a + b
  {
  }
}
