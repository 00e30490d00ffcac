/** The synchronous client (internal/guesthelper/client.go). */
module HelperClient {
  import opened Wrappers
  import opened Framing
  import opened HelperOps

  datatype Outcome =
    | Answered(resp: Response, data: seq<byte>)   // the reply reports success
    | Refused(resp: Response, data: seq<byte>)    // the reply carries an error
    | Broken(error: Error)                        // the transport failed in this call
    | AlreadyClosed                               // an earlier call failed, or Close was called

  datatype Codecs = Codecs(req: Codec<Request>, resp: Codec<Response>)

  ghost predicate FaithfulCodecs(c: Codecs) {
    && Faithful(c.req) && Faithful(c.resp)
    && (forall h :: c.req.len(h) == h.len) && (forall h :: c.resp.len(h) == h.len)
  }

  function ResultOf(reply: Message<Response>): Outcome {
    if reply.header.err != "" then Refused(reply.header, reply.payload) else Answered(reply.header, reply.payload)
  }

  function Announced(req: Request, payload: seq<byte>): Message<Request> {
    Message(req.(len := |payload|), payload)
  }

  /** What the client knows of its stream: everything sent, and what is still to come. */
  datatype Wire = Wire(closed: bool, sent: seq<byte>, incoming: seq<byte>)

  datatype Called = Called(wire: Wire, outcome: Outcome)

  /** One call; `accepted` is how much of the request's frame the stream takes. */
  function CallOf(c: Codecs, w: Wire, m: Message<Request>, accepted: nat): Called {
    if w.closed then Called(w, AlreadyClosed)
    else match FrameOf(c.req, m)
      case Err(e) => Called(w.(closed := true), Broken(e))
      case Ok(frame) =>
        if accepted < |frame| then
          Called(w.(closed := true, sent := w.sent + frame[..accepted]), Broken(WriteFailed))
        else
          var sent := w.sent + frame;
          match MessageOf(c.resp, w.incoming)
          case Failed(e) => Called(Wire(true, sent, []), Broken(e))
          case Got(reply, rest) => Called(Wire(false, sent, rest), ResultOf(reply))
  }

  // ----- Runs of calls -----

  datatype Session = Session(wire: Wire, outcomes: seq<Outcome>)

  function Calls(c: Codecs, w: Wire, ms: seq<Message<Request>>, accepted: seq<nat>): (s: Session)
    requires |accepted| == |ms|
    ensures |s.outcomes| == |ms|
    decreases |ms|
  {
    if ms == [] then Session(w, [])
    else
      var first := CallOf(c, w, ms[0], accepted[0]);
      var rest := Calls(c, first.wire, ms[1..], accepted[1..]);
      Session(rest.wire, [first.outcome] + rest.outcomes)
  }

  function FrameBytes<H>(c: Codec<H>, m: Message<H>): seq<byte> {
    if FrameOf(c, m).Ok? then FrameOf(c, m).value else []
  }

  function Frames<H>(c: Codec<H>, ms: seq<Message<H>>): seq<byte> {
    if ms == [] then [] else FrameBytes(c, ms[0]) + Frames(c, ms[1..])
  }

  /** How many calls are answered before one fails. */
  function AnsweredCalls(os: seq<Outcome>): (j: nat)
    ensures j <= |os|
    ensures forall k | 0 <= k < j :: os[k].Answered? || os[k].Refused?
    ensures j < |os| ==> os[j].Broken? || os[j].AlreadyClosed?
  {
    if os == [] || os[0].Broken? || os[0].AlreadyClosed? then 0 else 1 + AnsweredCalls(os[1..])
  }

  lemma {:induction false} ClosedCalls(c: Codecs, w: Wire, ms: seq<Message<Request>>, accepted: seq<nat>)
    requires |accepted| == |ms| && w.closed
    ensures Calls(c, w, ms, accepted).wire == w
    ensures forall k | 0 <= k < |ms| :: Calls(c, w, ms, accepted).outcomes[k] == AlreadyClosed
    decreases |ms|
  {
    if ms != [] {
      ClosedCalls(c, w, ms[1..], accepted[1..]);
    }
  }

  /** The frames written: in full up to the failing call, and of that call's frame only `partial`. */
  predicate Writes(c: Codec<Request>, before: seq<byte>, after: seq<byte>, ms: seq<Message<Request>>, j: nat,
                   partial: seq<byte>)
    requires j <= |ms|
  {
    && after == before + Frames(c, ms[..j]) + partial
    && partial <= (if j < |ms| then FrameBytes(c, ms[j]) else [])
  }

  lemma FramesFromFirst(c: Codec<Request>, ms: seq<Message<Request>>, j: nat)
    requires j < |ms|
    ensures Frames(c, ms[..j + 1]) == FrameBytes(c, ms[0]) + Frames(c, ms[1..][..j])
  {
    assert ms[..j + 1][1..] == ms[1..][..j];
  }

  lemma Regroup(a: seq<byte>, b: seq<byte>, c: seq<byte>, d: seq<byte>)
    ensures a + b + c + d == a + (b + c) + d
  {
  }

  lemma OneMoreFrame(c: Codec<Request>, before: seq<byte>, after: seq<byte>, ms: seq<Message<Request>>, j: nat,
                     partial: seq<byte>)
    requires j < |ms| && Writes(c, before + FrameBytes(c, ms[0]), after, ms[1..], j, partial)
    ensures Writes(c, before, after, ms, j + 1, partial)
  {
    FramesFromFirst(c, ms, j);
    Regroup(before, FrameBytes(c, ms[0]), Frames(c, ms[1..][..j]), partial);
  }

  lemma CallWrites(c: Codecs, w: Wire, m: Message<Request>, accepted: nat) returns (partial: seq<byte>)
    requires !w.closed
    ensures var d := CallOf(c, w, m, accepted);
            && d.wire.sent == w.sent + partial && partial <= FrameBytes(c.req, m)
            && (d.wire.closed <==> d.outcome.Broken?)
            && (!d.wire.closed ==> partial == FrameBytes(c.req, m) && !d.outcome.AlreadyClosed?)
  {
    var frame := FrameBytes(c.req, m);
    partial := if accepted < |frame| then frame[..accepted] else frame;
    assert w.sent + [] == w.sent;
  }

  /** A run on an open client is one call and then the run that call leaves. */
  lemma FirstCall(c: Codecs, w: Wire, ms: seq<Message<Request>>, accepted: seq<nat>)
    requires ms != [] && |accepted| == |ms| && !w.closed
    ensures var s := Calls(c, w, ms, accepted);
            var first := CallOf(c, w, ms[0], accepted[0]);
            var rest := Calls(c, first.wire, ms[1..], accepted[1..]);
            && s.outcomes[0] == first.outcome && s.outcomes[1..] == rest.outcomes && s.wire == rest.wire
            && (first.wire.closed ==> s.wire == first.wire && AnsweredCalls(s.outcomes) == 0)
            && (!first.wire.closed ==> AnsweredCalls(s.outcomes) == 1 + AnsweredCalls(rest.outcomes))
  {
    var _ := CallWrites(c, w, ms[0], accepted[0]);
    var first := CallOf(c, w, ms[0], accepted[0]);
    if first.wire.closed {
      ClosedCalls(c, first.wire, ms[1..], accepted[1..]);
    }
  }

  /** Up to the first failure the k-th result is the k-th reply on the stream; what fails is a
      transport failure once, and a local refusal ever after. */
  predicate Paired(c: Codecs, incoming: seq<byte>, os: seq<Outcome>) {
    var replies, j := MessagesOf(c.resp, incoming).0, AnsweredCalls(os);
    && j <= |replies|
    && (forall k | 0 <= k < j :: os[k] == ResultOf(replies[k]))
    && (j < |os| ==> os[j].Broken?)
    && (forall k | j < k < |os| :: os[k] == AlreadyClosed)
  }

  lemma OneMoreReply(c: Codecs, incoming: seq<byte>, rest: seq<byte>, os: seq<Outcome>)
    requires os != [] && Paired(c, rest, os[1..])
    requires MessageOf(c.resp, incoming).Got? && MessageOf(c.resp, incoming).rest == rest
    requires os[0] == ResultOf(MessageOf(c.resp, incoming).value)
    ensures Paired(c, incoming, os)
  {
    var j := AnsweredCalls(os[1..]);
    assert AnsweredCalls(os) == j + 1;
    assert forall k | 0 < k < |os| :: os[k] == os[1..][k - 1];
  }

  lemma {:induction false} PairedResults(c: Codecs, w: Wire, ms: seq<Message<Request>>, accepted: seq<nat>)
    requires |accepted| == |ms| && !w.closed
    ensures var s := Calls(c, w, ms, accepted);
            Paired(c, w.incoming, s.outcomes) && (AnsweredCalls(s.outcomes) < |ms| <==> s.wire.closed)
    decreases |ms|
  {
    if ms != [] {
      var first := CallOf(c, w, ms[0], accepted[0]);
      FirstCall(c, w, ms, accepted);
      if first.wire.closed {
        ClosedCalls(c, first.wire, ms[1..], accepted[1..]);
      } else {
        PairedResults(c, first.wire, ms[1..], accepted[1..]);
        OneMoreReply(c, w.incoming, first.wire.incoming, Calls(c, w, ms, accepted).outcomes);
      }
    }
  }

  predicate RunWrites(c: Codecs, w: Wire, ms: seq<Message<Request>>, accepted: seq<nat>, partial: seq<byte>)
    requires |accepted| == |ms|
  {
    var s := Calls(c, w, ms, accepted);
    Writes(c.req, w.sent, s.wire.sent, ms, AnsweredCalls(s.outcomes), partial)
  }

  lemma OneMoreCall(c: Codecs, w: Wire, ms: seq<Message<Request>>, accepted: seq<nat>, partial: seq<byte>)
    requires ms != [] && |accepted| == |ms| && !w.closed
    requires var first := CallOf(c, w, ms[0], accepted[0]).wire;
             if first.closed then first.sent == w.sent + partial && partial <= FrameBytes(c.req, ms[0])
             else first.sent == w.sent + FrameBytes(c.req, ms[0])
                  && RunWrites(c, first, ms[1..], accepted[1..], partial)
    ensures RunWrites(c, w, ms, accepted, partial)
  {
    FirstCall(c, w, ms, accepted);
    var s, first := Calls(c, w, ms, accepted), CallOf(c, w, ms[0], accepted[0]);
    if first.wire.closed {
      assert w.sent + Frames(c.req, ms[..0]) == w.sent;
    } else {
      var rest := Calls(c, first.wire, ms[1..], accepted[1..]);
      OneMoreFrame(c.req, w.sent, s.wire.sent, ms, AnsweredCalls(rest.outcomes), partial);
    }
  }

  lemma {:induction false} PairedWrites(c: Codecs, w: Wire, ms: seq<Message<Request>>, accepted: seq<nat>)
    returns (partial: seq<byte>)
    requires |accepted| == |ms| && !w.closed
    ensures RunWrites(c, w, ms, accepted, partial)
    decreases |ms|
  {
    if ms == [] {
      partial := [];
      assert w.sent + [] + [] == w.sent;
    } else {
      var first := CallOf(c, w, ms[0], accepted[0]);
      partial := CallWrites(c, w, ms[0], accepted[0]);
      if !first.wire.closed {
        partial := PairedWrites(c, first.wire, ms[1..], accepted[1..]);
      }
      OneMoreCall(c, w, ms, accepted, partial);
    }
  }

  /** Over every run of calls on an open client: the k-th result is the k-th reply on the stream, until
      a call fails; from then on every call is refused locally, and nothing is written beyond what of
      the failing request's frame the stream took. */
  lemma Pairing(c: Codecs, w: Wire, ms: seq<Message<Request>>, accepted: seq<nat>)
    returns (partial: seq<byte>)
    requires |accepted| == |ms| && !w.closed
    ensures var s := Calls(c, w, ms, accepted);
            var j := AnsweredCalls(s.outcomes);
            && Paired(c, w.incoming, s.outcomes)
            && Writes(c.req, w.sent, s.wire.sent, ms, j, partial)
            && (s.wire.closed <==> j < |ms|)
  {
    PairedResults(c, w, ms, accepted);
    partial := PairedWrites(c, w, ms, accepted);
  }

  // ----- The client as the program has it -----

  class Client {
    const codecs: Codecs
    const output: Sink
    const input: Source
    var closed: bool

    constructor (codecs: Codecs, output: Sink, input: Source)
      ensures !closed && this.codecs == codecs && this.output == output && this.input == input
    {
      this.codecs, this.output, this.input, closed := codecs, output, input, false;
    }

    /** Writes a request and reads its reply; a transport failure closes the client. */
    method Call(req: Request, payload: seq<byte>) returns (o: Outcome, ghost accepted: nat)
      modifies this, output, input
      ensures var w := Wire(old(closed), old(output.sent), old(input.rest));
              var called := CallOf(codecs, w, Announced(req, payload), accepted);
              && o == called.outcome && closed == called.wire.closed && output.sent == called.wire.sent
              && (!closed ==> input.rest == called.wire.incoming)
    {
      accepted := 0;
      if closed {
        return AlreadyClosed, 0;
      }
      var m := Announced(req, payload);
      var written := WriteMessage(output, codecs.req, m);
      accepted := |output.sent| - |old(output.sent)|;
      if written.Err? {
        closed := true;
        assert FrameOf(codecs.req, m).Ok? ==>
            output.sent == old(output.sent) + FrameOf(codecs.req, m).value[..accepted];
        return Broken(written.error), accepted;
      }
      var h := ReadHeader(input, codecs.resp);
      if h.Err? {
        closed := true;
        return Broken(h.error), accepted;
      }
      var data: seq<byte> := [];
      if codecs.resp.len(h.value) > 0 {
        var p := ReadPayload(input, codecs.resp.len(h.value));
        if p.Err? {
          closed := true;
          return Broken(p.error), accepted;
        }
        data := p.value;
      }
      return ResultOf(Message(h.value, data)), accepted;
    }

    /** Marks the client closed and, if it was open, asks the helper to quit without awaiting a reply. */
    method Close()
      modifies this, output
      ensures closed
      ensures old(closed) ==> output.sent == old(output.sent)
      ensures old(output.sent) <= output.sent <= old(output.sent) + FrameBytes(codecs.req, Message(QUIT, []))
    {
      assert output.sent <= output.sent + FrameBytes(codecs.req, Message(QUIT, []));
      if !closed {
        closed := true;
        var _ := WriteMessage(output, codecs.req, Message(QUIT, []));
      }
    }
  }

  const HELLO := Request(Hello, "", 0, 0, 0, false, VERSION)

  /** A client is handed out only once the helper has answered the greeting with the same version. */
  method NewClient(codecs: Codecs, output: Sink, input: Source) returns (client: Client?, ghost accepted: nat)
    modifies output, input
    ensures var called := CallOf(codecs, Wire(false, old(output.sent), old(input.rest)), Announced(HELLO, []), accepted);
            && (client != null <==> called.outcome.Answered? && called.outcome.resp.version == VERSION)
            && (client != null ==> fresh(client) && !client.closed && client.codecs == codecs
                                   && client.output == output && client.input == input)
            && output.sent == called.wire.sent
  {
    var c := new Client(codecs, output, input);
    var o;
    o, accepted := c.Call(HELLO, []);
    client := if o.Answered? && o.resp.version == VERSION then c else null;
  }
}
