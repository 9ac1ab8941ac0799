/** The remote-call protocol of `SudoProxy` (src/runas/__init__.py) as
    functions of the bytes on the pipe: what the helper answers to each
    request, the whole helper session as a function of its input stream, and
    how the caller interprets one reply. */
module Protocol {
  import opened Bytes
  import opened Framing
  import opened Wrappers
  import opened Envelope

  /** `b"READY"`, written raw (not pickled) when the helper starts. */
  const READY: seq<uint8> := [82, 69, 65, 68, 89]

  /** What a method of the target does when called: returns a value or
      raises an exception of some class with some message. */
  datatype Outcome = Returns(value: Value) | Raises(kind: string, message: string)

  /** A bound method: its `__name__` and its behaviour. */
  datatype Method = Method(name: string, body: seq<Value> -> Outcome)

  /** The target object: attribute name to bound method. */
  type Target = map<string, Method>

  /** Helper side, one call: `getattr(target, name)(*args)` with every
      `Exception` caught. A missing attribute is an `AttributeError`. */
  function Dispatch(t: Target, name: string, args: seq<Value>): Message
  {
    if name !in t then Reply(false, Exc("AttributeError", name))
    else match t[name].body(args)
      case Returns(v) => Reply(true, v)
      case Raises(k, msg) => Reply(false, Exc(k, msg))
  }

  /** The helper's reaction to one request: answer and go on, answer and
      stop, stop quietly (the `EOFError` the loop catches), or fail with an
      exception that escapes the loop. */
  datatype Response = Answer(reply: Message) | Finish(reply: Message) | Quit | Fault

  /** The reaction to a decoded request, which always has a reply or
      fails. */
  function Respond(t: Target, m: Message): (r: Response)
    ensures r.Answer? || r.Finish? || r.Fault?
  {
    match m
    case CloseRequest => Finish(ClosingReply)
    case Call(name, args) => Answer(Dispatch(t, name, args))
    // `methname, args = (success, payload)` binds a bool as the name, and
    // getattr with a non-string name raises TypeError inside the guarded call
    case Reply(_, _) => Answer(Reply(false, Exc("TypeError", "attribute name must be string")))
    // `methname, args = "CLOSING"` raises ValueError outside the guarded call
    case ClosingReply => Fault
  }

  /** How the helper loop ends: after answering "CLOSE", at end of stream
      (or on an empty request, whose unpickling raises `EOFError` too), or by an exception escaping `run` (an undecodable request, or a reply
      too long for its length word). */
  datatype SessionEnd = Acknowledged | PeerGone | Crashed

  /** The replies the helper writes after `READY`, how the loop ends, and how
      many input bytes it reads. */
  datatype Session = Session(replies: seq<Message>, end: SessionEnd, consumed: nat)

  predicate Sendable(m: Message)
  {
    Fits(Pickle(m))
  }

  predicate AllSendable(ms: seq<Message>)
  {
    forall i :: 0 <= i < |ms| ==> Sendable(ms[i])
  }

  /** The helper's handling of one received payload: decode it, respond,
      and fail if the reply does not fit its length word (`struct.error`
      escapes `run` before anything is written). Unpickling an empty payload
      raises `EOFError`, which the loop catches like end of stream. */
  function Handle(t: Target, d: seq<uint8>): (r: Response)
    ensures r.Answer? || r.Finish? ==> Sendable(r.reply)
    ensures r.Answer? ==> r.reply.Reply?
    ensures r.Finish? ==> r.reply == ClosingReply
    ensures r.Quit? <==> d == []
  {
    if d == [] then Quit
    else match Unpickle(d)
    case None => Fault
    case Some(m) =>
      var r := Respond(t, m);
      if r.Fault? || !Sendable(r.reply) then Fault else r
  }

  /** The helper's whole dispatch loop over the unread input `s`. */
  function Serve(t: Target, s: seq<uint8>): (r: Session)
    decreases |s|
  {
    var (rcv, k) := ReadFrame(s);
    if !rcv.Payload? then Session([], PeerGone, k)
    else match Handle(t, rcv.data)
      case Quit => Session([], PeerGone, k)
      case Fault => Session([], Crashed, k)
      case Finish(rep) => Session([rep], Acknowledged, k)
      case Answer(rep) =>
        var more := Serve(t, s[k..]);
        Session([rep] + more.replies, more.end, k + more.consumed)
  }

  /** Every reply the helper writes fits its frame, and the helper never
      reads past the end of its input. */
  lemma {:induction false} ServeBounds(t: Target, s: seq<uint8>)
    ensures AllSendable(Serve(t, s).replies)
    ensures Serve(t, s).consumed <= |s|
    decreases |s|
  {
    var (rcv, k) := ReadFrame(s);
    if rcv.Payload? && Handle(t, rcv.data).Answer? {
      ServeBounds(t, s[k..]);
      var rep := Handle(t, rcv.data).reply;
      var more := Serve(t, s[k..]);
      assert Serve(t, s).replies == [rep] + more.replies;
    }
  }

  /** The bytes of the replies written one frame each, in order. */
  function Transcript(ms: seq<Message>): seq<uint8>
    requires AllSendable(ms)
    decreases |ms|
  {
    if ms == [] then [] else EncodeFrame(Pickle(ms[0])) + Transcript(ms[1..])
  }

  lemma TranscriptCons(m: Message, ms: seq<Message>)
    requires Sendable(m) && AllSendable(ms)
    ensures AllSendable([m] + ms)
    ensures Transcript([m] + ms) == EncodeFrame(Pickle(m)) + Transcript(ms)
  {
    assert forall i :: 0 < i < |ms| + 1 ==> ([m] + ms)[i] == ms[i - 1];
    assert ([m] + ms)[1..] == ms;
  }

  /** The bytes the helper writes after "READY" for the unread input `s`,
      frame by frame as the loop goes. */
  ghost function Output(t: Target, s: seq<uint8>): seq<uint8>
    decreases |s|
  {
    var (rcv, k) := ReadFrame(s);
    if !rcv.Payload? then []
    else match Handle(t, rcv.data)
      case Quit => []
      case Fault => []
      case Finish(rep) => EncodeFrame(Pickle(rep))
      case Answer(rep) => EncodeFrame(Pickle(rep)) + Output(t, s[k..])
  }

  /** What the helper writes is the session's replies, one frame each. */
  lemma {:induction false} OutputIsTranscript(t: Target, s: seq<uint8>)
    ensures AllSendable(Serve(t, s).replies)
    ensures Output(t, s) == Transcript(Serve(t, s).replies)
    decreases |s|
  {
    ServeBounds(t, s);
    var (rcv, k) := ReadFrame(s);
    if rcv.Payload? && (Handle(t, rcv.data).Answer? || Handle(t, rcv.data).Finish?) {
      var rep := Handle(t, rcv.data).reply;
      if Handle(t, rcv.data).Finish? {
        TranscriptCons(rep, []);
        assert EncodeFrame(Pickle(rep)) + [] == EncodeFrame(Pickle(rep));
      } else {
        OutputIsTranscript(t, s[k..]);
        TranscriptCons(rep, Serve(t, s[k..]).replies);
      }
    }
  }

  /** Errors the caller raises locally. */
  datatype Failure =
    | AttributeError(attr: string)
    | EOFError
    | ValueError      // I/O on a closed file
    | StructError     // payload too long for the length word
    | UnpicklingError
    | TypeError       // `raise result` where result is not an exception
    | MalformedReply  // a decodable message that is not a `(success, result)` pair
    | RuntimeError(message: string)
    | PicklingError   // `pickle.dumps` of an object holding a wrapper, a file or a process

  /** What a proxied call gives the caller. `Raised` is an exception of the
      target's own class and message. */
  datatype CallResult = Returned(value: Value) | Raised(kind: string, message: string) | Failed(error: Failure)

  /** Caller side, the second half of `wrapper`: read one reply and return
      its result or raise its error. */
  function Interpret(r: Received): CallResult
  {
    match r
    case EndOfStream => Failed(EOFError)
    case ClosedFile => Failed(ValueError)
    case Payload(d) =>
      // `pickle.loads(b"")` raises `EOFError`
      if d == [] then Failed(EOFError)
      else match Unpickle(d)
        case None => Failed(UnpicklingError)
        case Some(Reply(true, v)) => Returned(v)
        case Some(Reply(false, Exc(k, msg))) => Raised(k, msg)
        case Some(Reply(false, Blob(_))) => Failed(TypeError)
        // The helper only ever writes replies and "CLOSING". A decoded call
        // pair, which `wrapper` would unpack as a truthy flag and return its
        // argument tuple, cannot arrive; it counts as malformed here.
        case Some(_) => Failed(MalformedReply)
  }

  /** Calling the target's method in the caller's own process. */
  function Direct(t: Target, name: string, args: seq<Value>): CallResult
  {
    if name !in t then Raised("AttributeError", name)
    else match t[name].body(args)
      case Returns(v) => Returned(v)
      case Raises(k, msg) => Raised(k, msg)
  }

  /** A decoded call is dispatched and its reply written, as long as that
      reply fits its frame. */
  lemma HandleCall(t: Target, name: string, args: seq<Value>)
    requires Sendable(Dispatch(t, name, args))
    ensures Handle(t, Pickle(Call(name, args))) == Answer(Dispatch(t, name, args))
  {
    PickleRoundTrip(Call(name, args));
  }

  /** One step of the loop: a payload that is answered is followed by the
      session over the bytes after its frame. */
  lemma ServeStep(t: Target, s: seq<uint8>, d: seq<uint8>, k: nat, rep: Message)
    requires ReadFrame(s) == (Payload(d), k) && Handle(t, d) == Answer(rep)
    ensures Serve(t, s) == Prepend([rep], k, Serve(t, s[k..]))
  {
  }

  /** One call frame is answered with one reply, and then the loop goes on
      with the next frame, whether the method returned or raised. */
  lemma {:induction false} CallThenContinue(t: Target, name: string, args: seq<Value>, s: seq<uint8>)
    requires Sendable(Call(name, args)) && Sendable(Dispatch(t, name, args))
    ensures Serve(t, EncodeFrame(Pickle(Call(name, args))) + s)
         == Prepend([Dispatch(t, name, args)], 4 + |Pickle(Call(name, args))|, Serve(t, s))
  {
    var p := Pickle(Call(name, args));
    var f := EncodeFrame(p) + s;
    FrameRoundTrip(p, s);
    HandleCall(t, name, args);
    ServeStep(t, f, p, 4 + |p|, Dispatch(t, name, args));
    assert (EncodeFrame(p) + s)[|EncodeFrame(p)|..] == s;
  }

  /** A proxied call has the outcome of calling the method directly, for
      returns and raised exceptions alike: the helper's one reply to the call
      frame, read back by the caller, is `Direct`. */
  lemma {:induction false} RemoteCallMatchesDirectCall(t: Target, name: string, args: seq<Value>, s: seq<uint8>, after: seq<uint8>)
    requires Sendable(Call(name, args)) && Sendable(Dispatch(t, name, args))
    ensures var sess := Serve(t, EncodeFrame(Pickle(Call(name, args))) + s);
            |sess.replies| >= 1 &&
            Interpret(ReadFrame(EncodeFrame(Pickle(sess.replies[0])) + after).0) == Direct(t, name, args)
  {
    CallThenContinue(t, name, args, s);
    var rep := Dispatch(t, name, args);
    FrameRoundTrip(Pickle(rep), after);
    PickleRoundTrip(rep);
  }

  const CloseFrame: seq<uint8> := EncodeFrame(Pickle(CloseRequest))

  /** "CLOSE" is answered with one "CLOSING" and ends the loop; nothing
      after the close frame is read. */
  lemma {:induction false} CloseEndsSession(t: Target, after: seq<uint8>)
    ensures Serve(t, CloseFrame + after) == Session([ClosingReply], Acknowledged, |CloseFrame|)
  {
    FrameRoundTrip(Pickle(CloseRequest), after);
    PickleRoundTrip(CloseRequest);
  }

  /** The session with `more` put after the replies already written. */
  function Prepend(replies: seq<Message>, consumed: nat, more: Session): Session
  {
    Session(replies + more.replies, more.end, consumed + more.consumed)
  }

  /** End of stream while waiting for a request ends the session without a
      reply. */
  lemma EndOfStreamEndsSilently(t: Target, s: seq<uint8>)
    requires ReadFrame(s).0 == EndOfStream
    ensures Serve(t, s) == Session([], PeerGone, |s|)
  {
  }

  /** A zero-length request frame ends the session like end of stream:
      no reply, and nothing after the frame is read. */
  lemma {:induction false} EmptyFrameEndsSilently(t: Target, after: seq<uint8>)
    ensures Serve(t, EncodeFrame([]) + after) == Session([], PeerGone, 4)
    ensures Output(t, EncodeFrame([]) + after) == []
  {
    FrameRoundTrip([], after);
  }

  /** "CLOSING" is the last reply exactly when the session ends by
      acknowledgement, and it is never sent before the last reply. */
  predicate ClosingLast(r: Session)
  {
    (r.end == Acknowledged <==> (|r.replies| > 0 && r.replies[|r.replies| - 1] == ClosingReply))
    && forall i :: 0 <= i < |r.replies| - 1 ==> r.replies[i] != ClosingReply
  }

  lemma PrependKeepsClosingLast(rep: Message, k: nat, more: Session)
    requires rep != ClosingReply && ClosingLast(more)
    ensures ClosingLast(Prepend([rep], k, more))
  {
    var r := Prepend([rep], k, more);
    forall i | 0 <= i < |r.replies| - 1
      ensures r.replies[i] != ClosingReply
    {
      if i > 0 {
        assert r.replies[i] == more.replies[i - 1];
      }
    }
  }

  /** Whatever the helper reads, its session ends with "CLOSING" as the last
      reply exactly when it ends by acknowledgement. */
  lemma {:induction false} ClosingOnlyAtEnd(t: Target, s: seq<uint8>)
    ensures ClosingLast(Serve(t, s))
    decreases |s|
  {
    var (rcv, k) := ReadFrame(s);
    if rcv.Payload? {
      var h := Handle(t, rcv.data);
      if h.Answer? {
        ClosingOnlyAtEnd(t, s[k..]);
        ServeStep(t, s, rcv.data, k, h.reply);
        PrependKeepsClosingLast(h.reply, k, Serve(t, s[k..]));
      }
    }
  }
}
