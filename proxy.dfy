/** `SudoProxy` of src/runas/__init__.py: the caller's side (`start`,
    `close`, `terminate`, attribute lookup and the wrappers it hands out)
    over the pipe `spawn_sudo` of src/runas/sudo_posix.py returns, and the
    helper's side (`run`), whose loop is proved to do what `Serve` says. */
module Proxy {
  import opened Bytes
  import opened Wrappers
  import opened Framing
  import opened Envelope
  import opened Protocol
  import opened PathSearch
  import opened Launcher
  import SudoPosix

  /** The function `__getattr__` returns: it sends calls under the bound
      method's `__name__` over the pipe that was current when it was made. */
  datatype Wrapper = Wrapper(name: string, pipe: SudoPosix.StdPipe?)

  /** What looking up an attribute of the proxy gives. */
  datatype Attribute =
    | Own                    // an attribute of the instance or the class itself
    | Proxied(wrapper: Wrapper)
    | NoAttribute(error: Failure)

  /** The instance attributes `__init__` sets and the methods of the class:
      found by ordinary lookup, never by `__getattr__`. */
  const OWN_NAMES: set<string> := {"target", "closed", "pipe", "start", "close", "terminate", "run"}

  predicate Private(attr: string)
  {
    |attr| > 0 && attr[0] == '_'
  }

  /** The request `close` sends. */
  const CLOSE_PAYLOAD: seq<uint8> := Pickle(CloseRequest)

  class SudoProxy {
    const target: Target
    var closed: bool
    var pipe: SudoPosix.StdPipe?
    /** `self.proc`, which exists only once `start` has spawned it. */
    var proc: Option<SudoPosix.Proc>
    /** Whether `proc.wait()` has been called. */
    var waited: bool
    /** The wrappers `__getattr__` stored on the instance with `setattr`. */
    var wrappers: map<string, Wrapper>

    ghost predicate Valid()
      reads this, pipe, if pipe != null then {pipe.base} else {}
    {
      pipe != null ==> pipe.Valid()
    }

    /** Whether `pickle.dumps(self)` succeeds: the instance holds no pipe
        (its file objects cannot be pickled), no process, and no cached
        wrapper (a local function whose copied qualified name names the
        target's method, so pickling it by reference finds another object).
        The target itself is taken to be picklable. */
    predicate Picklable()
      reads this
    {
      pipe == null && proc.None? && wrappers == map[]
    }

    /** `SudoProxy(target)`: not closed, no pipe. */
    constructor (target: Target)
      ensures Valid() && this.target == target
      ensures !closed && pipe == null && proc.None? && !waited && wrappers == map[]
    {
      this.target := target;
      closed := false;
      pipe := null;
      proc := None;
      waited := false;
      wrappers := map[];
    }

    /** `close()`: send "CLOSE" and read one frame, whatever it holds, then
        set `closed`. Without a pipe the first step raises
        `AttributeError`; end of stream raises `EOFError` and `closed`
        stays as it was. */
    method Close() returns (e: Option<Failure>)
      requires Valid()
      modifies this`closed, if pipe != null then {pipe.base} else {}
      ensures Valid() && (pipe != null ==> pipe.base.input == old(pipe.base.input))
      ensures pipe == null ==> e == Some(AttributeError("write")) && closed == old(closed)
      ensures pipe != null && !pipe.writeOpen ==>
                e == Some(ValueError) && closed == old(closed)
                && pipe.base.output == old(pipe.base.output) && pipe.base.cursor == old(pipe.base.cursor)
      ensures pipe != null && pipe.writeOpen ==>
                pipe.base.output == old(pipe.base.output) + CloseFrame
                && (!pipe.readOpen ==> e == Some(ValueError) && closed == old(closed)
                                       && pipe.base.cursor == old(pipe.base.cursor))
                && (pipe.readOpen ==>
                      var (r, k) := ReadFrame(old(pipe.base.Unread()));
                      pipe.base.cursor == old(pipe.base.cursor) + k
                      && (r.EndOfStream? ==> e == Some(EOFError) && closed == old(closed))
                      && (r.Payload? ==> e.None? && closed))
    {
      if pipe == null {
        return Some(AttributeError("write"));
      }
      PickleRoundTrip(CloseRequest);
      var sent := pipe.Write(CLOSE_PAYLOAD);
      if sent == WriteOnClosed {
        return Some(ValueError);
      }
      var r := pipe.Read();
      if r == EndOfStream {
        return Some(EOFError);
      }
      if r == ClosedFile {
        return Some(ValueError);
      }
      closed := true;
      e := None;
    }

    /** `terminate()`: `close()` first unless already closed (its error, if
        any, propagates), then close the pipe, drop it, and wait for the
        process. */
    method Terminate() returns (e: Option<Failure>)
      requires Valid()
      modifies this`closed, this`pipe, this`waited, if pipe != null then {pipe, pipe.base} else {}
      ensures Valid()
      ensures old(closed) && old(pipe) == null ==>
                e == Some(AttributeError("close")) && pipe == null && waited == old(waited)
      ensures old(closed) && old(pipe) != null ==>
                pipe == null && !old(pipe).readOpen && !old(pipe).writeOpen
                && (e.None? <==> old(proc).Some?) && (e.None? ==> waited)
                && (e.Some? ==> e == Some(AttributeError("proc")) && waited == old(waited))
                && old(pipe).base.output == old(pipe.base.output) && old(pipe).base.cursor == old(pipe.base.cursor)
      ensures !old(closed) && old(pipe) == null ==>
                e == Some(AttributeError("write")) && pipe == null && !closed && waited == old(waited)
      ensures !old(closed) && old(pipe) != null && !old(pipe.writeOpen) ==>
                e == Some(ValueError) && pipe == old(pipe) && !closed && waited == old(waited)
                && pipe.readOpen == old(pipe.readOpen)
                && pipe.base.output == old(pipe.base.output) && pipe.base.cursor == old(pipe.base.cursor)
      ensures !old(closed) && old(pipe) != null && old(pipe.writeOpen) && !old(pipe.readOpen) ==>
                e == Some(ValueError) && pipe == old(pipe) && pipe.writeOpen && !closed && waited == old(waited)
                && pipe.base.output == old(pipe.base.output) + CloseFrame && pipe.base.cursor == old(pipe.base.cursor)
      ensures !old(closed) && old(pipe) != null && old(pipe.writeOpen) && old(pipe.readOpen)
              && ReadFrame(old(pipe.base.Unread())).0.Payload? ==>
                closed && pipe == null && !old(pipe).readOpen && !old(pipe).writeOpen
                && old(pipe).base.output == old(pipe.base.output) + CloseFrame
                && (e.None? <==> old(proc).Some?) && (e.None? ==> waited)
                && (e.Some? ==> e == Some(AttributeError("proc")) && waited == old(waited))
      ensures !old(closed) && old(pipe) != null && old(pipe.writeOpen) && old(pipe.readOpen)
              && ReadFrame(old(pipe.base.Unread())).0.EndOfStream? ==>
                e == Some(EOFError) && pipe == old(pipe) && pipe.readOpen && !closed && waited == old(waited)
    {
      if !closed {
        e := Close();
        if e.Some? {
          return;
        }
      }
      if pipe == null {
        return Some(AttributeError("close"));
      }
      pipe.Close();
      pipe := null;
      if proc.None? {
        return Some(AttributeError("proc"));
      }
      waited := true;
      e := None;
    }

    /** Attribute lookup on the proxy: ordinary lookup first (its own
        attributes, `proc` once started, and the wrappers cached by earlier
        lookups), then `__getattr__`, which refuses names starting with `_`
        and names the target lacks, and otherwise makes a wrapper over the
        current pipe and caches it on the instance. */
    method GetAttr(attr: string) returns (r: Attribute)
      modifies this`wrappers
      ensures attr in OWN_NAMES || (attr == "proc" && proc.Some?) ==> r == Own && wrappers == old(wrappers)
      ensures !(attr in OWN_NAMES || (attr == "proc" && proc.Some?)) ==>
                if attr in old(wrappers) then
                  r == Proxied(old(wrappers)[attr]) && wrappers == old(wrappers)
                else if Private(attr) || attr !in target then
                  r == NoAttribute(AttributeError(attr)) && wrappers == old(wrappers)
                else
                  r == Proxied(Wrapper(target[attr].name, pipe))
                  && wrappers == old(wrappers)[attr := Wrapper(target[attr].name, pipe)]
    {
      if attr in OWN_NAMES || (attr == "proc" && proc.Some?) {
        return Own;
      }
      if attr in wrappers {
        return Proxied(wrappers[attr]);
      }
      if Private(attr) {
        return NoAttribute(AttributeError(attr));
      }
      if attr !in target {
        return NoAttribute(AttributeError(attr));
      }
      var w := Wrapper(target[attr].name, pipe);
      wrappers := wrappers[attr := w];
      r := Proxied(w);
    }

    /** `start(user, password)`: spawn the helper through `sudo` (see
        `SudoPosix.SpawnSudo`, whose parameters stand for what it reads from
        the process and the system), fail if it has already exited
        (`exited` stands for `proc.poll()` returning a status), then read
        the first frame, end of stream counting as empty. Anything but
        "READY" makes it call `close()` (whose own error, if any, is the one
        raised) and then fail. The spawn pickles the proxy before anything
        else, so a proxy that is not `Picklable` fails at once and nothing
        changes. */
    method Start(user: string, password: string, interp: string, pathBlob: string, proxyBlob: string,
                 env: Env, existing: set<string>, output: seq<uint8>, exited: bool)
      returns (e: Option<Failure>)
      requires Valid()
      modifies this`pipe, this`proc, this`closed
      ensures Valid()
      ensures !old(Picklable()) ==>
                e == Some(PicklingError) && pipe == old(pipe) && proc == old(proc) && closed == old(closed)
      ensures old(Picklable()) && FirstHit(SearchDirs(env), "sudo", existing).None? ==>
                e == Some(RuntimeError("no sudo found")) && pipe == old(pipe) && proc == old(proc)
                && closed == old(closed)
      ensures old(Picklable()) && FirstHit(SearchDirs(env), "sudo", existing).Some? ==>
                pipe != null && fresh(pipe) && proc.Some?
                && proc.value.argv == SudoPosix.SudoPrefix(FirstHit(SearchDirs(env), "sudo", existing).value, user)
                                      + [interp, "-c", STARTUP_CODE] + [FLAG, pathBlob, proxyBlob]
                && pipe.base.input == output
      ensures old(Picklable()) && FirstHit(SearchDirs(env), "sudo", existing).Some? && exited ==>
                e == Some(RuntimeError("sudo helper process terminated unexpectedly"))
                && pipe.base.cursor == 0 && pipe.base.output == PasswordLine(password)
                && closed == old(closed)
      ensures old(Picklable()) && FirstHit(SearchDirs(env), "sudo", existing).Some? && !exited ==>
                var (r, k) := ReadFrame(output);
                var msg := if r.Payload? then r.data else [];
                (msg == READY ==> e.None? && closed == old(closed)
                                  && pipe.base.cursor == k && pipe.base.output == PasswordLine(password))
                && (msg != READY ==>
                      pipe.base.output == PasswordLine(password) + CloseFrame
                      && var (r2, k2) := ReadFrame(output[k..]);
                         pipe.base.cursor == k + k2
                         && (r2.EndOfStream? ==> e == Some(EOFError) && closed == old(closed))
                         && (r2.Payload? ==> e == Some(RuntimeError("failed to spawn helper app")) && closed))
    {
      if !Picklable() {
        return Some(PicklingError);
      }
      var spawned, newPipe := SudoPosix.SpawnSudo(user, password, interp, pathBlob, proxyBlob, env, existing, output);
      if spawned.None? {
        return Some(RuntimeError("no sudo found"));
      }
      proc := spawned;
      pipe := newPipe;
      if exited {
        return Some(RuntimeError("sudo helper process terminated unexpectedly"));
      }
      var r := pipe.Read();
      var msg := if r.Payload? then r.data else [];
      if msg != READY {
        e := Close();
        if e.Some? {
          return;
        }
        return Some(RuntimeError("failed to spawn helper app"));
      }
      e := None;
    }

    /** `run(pipe)`, the helper's loop: write "READY", then answer frame
        after frame until "CLOSE" (answered with "CLOSING"), end of stream,
        or an error that escapes the loop; from then on the pipe is closed
        on every path. A failed "READY" write raises before the `try` and
        leaves the pipe as it was. Replies and the session's end are exactly
        what `Serve` gives for the bytes the helper reads. */
    method Run(pipe: SudoPosix.StdPipe) returns (end: SessionEnd)
      requires pipe.Valid()
      modifies pipe, pipe.base
      ensures pipe.Valid()
      ensures old(pipe.writeOpen) ==> !pipe.readOpen && !pipe.writeOpen && !pipe.base.connected
      ensures !old(pipe.writeOpen) ==>
                end == Crashed && !pipe.writeOpen && pipe.readOpen == old(pipe.readOpen)
                && pipe.base.connected == old(pipe.base.connected)
                && pipe.base.output == old(pipe.base.output)
                && pipe.base.cursor == old(pipe.base.cursor)
      ensures old(pipe.writeOpen) && !old(pipe.readOpen) ==>
                end == Crashed && pipe.base.output == old(pipe.base.output) + EncodeFrame(READY)
                && pipe.base.cursor == old(pipe.base.cursor)
      ensures old(pipe.writeOpen) && old(pipe.readOpen) ==>
                var session := Serve(target, old(pipe.base.Unread()));
                end == session.end
                && pipe.base.cursor == old(pipe.base.cursor) + session.consumed
                && AllSendable(session.replies)
                && pipe.base.output == old(pipe.base.output) + EncodeFrame(READY) + Transcript(session.replies)
    {
      ghost var s0 := pipe.base.Unread();
      OutputIsTranscript(target, s0);
      var sent := pipe.Write(READY);
      if sent != Written {
        return Crashed;
      }
      if !pipe.readOpen {
        // the loop's first read raises `ValueError`, which escapes it
        end := Crashed;
      } else {
        end := ServeLoop(pipe);
      }
      pipe.Close();
    }

    /** The `while True` loop of `run`, up to the `finally`: how it ends,
        what it reads and what it writes are those of `Serve` over the unread
        input. */
    method ServeLoop(pipe: SudoPosix.StdPipe) returns (end: SessionEnd)
      requires pipe.Valid() && pipe.writeOpen && pipe.readOpen
      modifies pipe.base
      ensures pipe.Valid() && pipe.base.input == old(pipe.base.input)
      ensures end == Serve(target, old(pipe.base.Unread())).end
      ensures pipe.base.cursor == old(pipe.base.cursor) + Serve(target, old(pipe.base.Unread())).consumed
      ensures pipe.base.output == old(pipe.base.output) + Output(target, old(pipe.base.Unread()))
    {
      ghost var s0 := pipe.base.Unread();
      ghost var c0 := pipe.base.cursor;
      ghost var head := pipe.base.output;
      assert head + Output(target, s0) == pipe.base.output + Output(target, s0);
      end := Crashed;
      while true
        invariant pipe.Valid()
        invariant pipe.base.input == old(pipe.base.input) && c0 <= pipe.base.cursor
        invariant Serve(target, pipe.base.Unread()).end == Serve(target, s0).end
        invariant pipe.base.cursor - c0 + Serve(target, pipe.base.Unread()).consumed == Serve(target, s0).consumed
        invariant pipe.base.output + Output(target, pipe.base.Unread()) == head + Output(target, s0)
        decreases |pipe.base.input| - pipe.base.cursor
      {
        ghost var u := pipe.base.Unread();
        ghost var c := pipe.base.cursor;
        var stop := HandleNext(pipe);
        if stop.Some? {
          end := stop.value;
          break;
        }
        ghost var k := pipe.base.cursor - c;
        assert pipe.base.Unread() == u[k..];
      }
    }

    /** One pass of the loop: read a request and end the session at end of
        stream or on an empty request (`pickle.loads(b"")` raises
        `EOFError`); a request that does not decode escapes the loop. Whether the
        loop stops and how, what is read and what is written are as `Serve`
        and `Output` have them for the unread input. */
    method HandleNext(pipe: SudoPosix.StdPipe) returns (stop: Option<SessionEnd>)
      requires pipe.Valid() && pipe.writeOpen && pipe.readOpen
      modifies pipe.base
      ensures pipe.Valid() && pipe.base.input == old(pipe.base.input)
      ensures var u := old(pipe.base.Unread());
              var k := ReadFrame(u).1;
              pipe.base.cursor == old(pipe.base.cursor) + k
              && (stop.Some? ==>
                    Serve(target, u).end == stop.value && Serve(target, u).consumed == k
                    && pipe.base.output == old(pipe.base.output) + Output(target, u))
              && (stop.None? ==>
                    k > 0
                    && Serve(target, u).end == Serve(target, u[k..]).end
                    && Serve(target, u).consumed == k + Serve(target, u[k..]).consumed
                    && old(pipe.base.output) + Output(target, u) == pipe.base.output + Output(target, u[k..]))
    {
      ghost var u := pipe.base.Unread();
      ServeOutput(target, u);
      var rcv := pipe.Read();
      if rcv == EndOfStream || rcv.data == [] {
        return Some(PeerGone);
      }
      var call := Unpickle(rcv.data);
      if call.None? {
        return Some(Crashed);
      }
      stop := AnswerRequest(pipe, call.value);
      if stop.None? {
        ghost var k := ReadFrame(u).1;
        ghost var reply := Respond(target, call.value).reply;
        assert Handle(target, rcv.data) == Answer(reply);
        Regroup(old(pipe.base.output), EncodeFrame(Pickle(reply)), Output(target, u[k..]));
      }
    }

    /** The body of the loop once a request is decoded: "CLOSE" is answered
        with "CLOSING" and stops the loop; a call `(name, args)` gets the
        method's result or the exception it raised; a decoded `(success,
        payload)` pair is a call whose name is not a string, answered with
        `TypeError`; a stray "CLOSING" cannot be unpacked and escapes. A
        reply too long for its frame escapes too, with nothing written. */
    method AnswerRequest(pipe: SudoPosix.StdPipe, request: Message) returns (stop: Option<SessionEnd>)
      requires pipe.Valid() && pipe.writeOpen
      modifies pipe.base`output
      ensures pipe.Valid()
      ensures var r := Respond(target, request);
              (r.Fault? || !Sendable(r.reply) ==> stop == Some(Crashed) && pipe.base.output == old(pipe.base.output))
              && (!r.Fault? && Sendable(r.reply) ==>
                    pipe.base.output == old(pipe.base.output) + EncodeFrame(Pickle(r.reply))
                    && stop == if r.Finish? then Some(Acknowledged) else None)
    {
      var reply: Message;
      match request {
        case CloseRequest =>
          reply := ClosingReply;
        case ClosingReply =>
          // `methname, args = "CLOSING"` raises outside the guarded call
          return Some(Crashed);
        case Reply(_, _) =>
          reply := Reply(false, Exc("TypeError", "attribute name must be string"));
        case Call(name, args) =>
          reply := Dispatch(target, name, args);
      }
      var sent := pipe.Write(Pickle(reply));
      if sent == Oversize {
        return Some(Crashed);
      }
      stop := if request == CloseRequest then Some(Acknowledged) else None;
    }
  }

  /** Sequence concatenation regrouped; stated apart to keep the loop's
      proof small. */
  lemma Regroup(a: seq<uint8>, b: seq<uint8>, c: seq<uint8>)
    ensures a + (b + c) == a + b + c
  {
  }

  /** The first step of `Serve` and `Output`: end of stream, an empty
      request, a fault, or
      "CLOSE" answered end the session at the first frame, with nothing or
      "CLOSING" written; any other answered request writes its reply and is
      followed by the session over the bytes after it. */
  lemma ServeOutput(t: Target, u: seq<uint8>)
    ensures var (rcv, k) := ReadFrame(u);
            (!rcv.Payload? || rcv.data == [] ==> Serve(t, u) == Session([], PeerGone, k) && Output(t, u) == [])
            && (rcv.Payload? && Handle(t, rcv.data).Fault? ==>
                  Serve(t, u) == Session([], Crashed, k) && Output(t, u) == [])
            && (rcv.Payload? && Handle(t, rcv.data).Finish? ==>
                  Serve(t, u) == Session([ClosingReply], Acknowledged, k)
                  && Output(t, u) == EncodeFrame(Pickle(ClosingReply)))
            && (rcv.Payload? && Handle(t, rcv.data).Answer? ==>
                  Serve(t, u).end == Serve(t, u[k..]).end
                  && Serve(t, u).consumed == k + Serve(t, u[k..]).consumed
                  && Output(t, u) == EncodeFrame(Pickle(Handle(t, rcv.data).reply)) + Output(t, u[k..]))
  {
    var (rcv, k) := ReadFrame(u);
    if rcv.Payload? && Handle(t, rcv.data).Finish? {
      assert EncodeFrame(Pickle(ClosingReply)) + [] == EncodeFrame(Pickle(ClosingReply));
    }
  }

  /** A call through a wrapper, `wrapper(*args)`: write the pickled
      `(name, args)` frame, read one frame, and return or raise what it
      holds. No pipe, an oversize call or a closed stream fail before
      anything is read. */
  method Invoke(w: Wrapper, args: seq<Value>) returns (r: CallResult)
    requires w.pipe != null ==> w.pipe.Valid()
    modifies if w.pipe != null then {w.pipe.base} else {}
    ensures w.pipe == null ==> r == Failed(AttributeError("write"))
    ensures w.pipe != null ==>
              var p := Pickle(Call(w.name, args));
              w.pipe.Valid()
              && (!Fits(p) ==> r == Failed(StructError) && w.pipe.base.output == old(w.pipe.base.output))
              && (Fits(p) && !w.pipe.writeOpen ==> r == Failed(ValueError) && w.pipe.base.output == old(w.pipe.base.output))
              && (Fits(p) && w.pipe.writeOpen ==>
                    w.pipe.base.output == old(w.pipe.base.output) + EncodeFrame(p)
                    && (!w.pipe.readOpen ==> r == Failed(ValueError))
                    && (w.pipe.readOpen ==>
                          var (rcv, k) := ReadFrame(old(w.pipe.base.Unread()));
                          r == Interpret(rcv) && w.pipe.base.cursor == old(w.pipe.base.cursor) + k))
  {
    if w.pipe == null {
      return Failed(AttributeError("write"));
    }
    var sent := w.pipe.Write(Pickle(Call(w.name, args)));
    if sent == Oversize {
      return Failed(StructError);
    }
    if sent == WriteOnClosed {
      return Failed(ValueError);
    }
    var rcv := w.pipe.Read();
    r := Interpret(rcv);
  }

  /** A wrapper looked up before `start` is cached on the instance, so the
      proxy can no longer be pickled: `start` fails before spawning
      anything, and the wrapper, holding no pipe, fails with
      `AttributeError` when called. */
  method LookupBlocksStart(target: Target, attr: string, user: string, password: string, interp: string,
                           pathBlob: string, proxyBlob: string, env: Env, existing: set<string>,
                           output: seq<uint8>, exited: bool, args: seq<Value>)
    returns (started: Option<Failure>, result: CallResult)
    requires attr in target && !Private(attr) && attr !in OWN_NAMES && attr != "proc"
    ensures started == Some(PicklingError) && result == Failed(AttributeError("write"))
  {
    var proxy := new SudoProxy(target);
    var early := proxy.GetAttr(attr);
    started := proxy.Start(user, password, interp, pathBlob, proxyBlob, env, existing, output, exited);
    result := Invoke(early.wrapper, args);
  }

  /** A proxy that has started once holds its pipe and process, so starting
      it again fails to pickle it. */
  method RestartFails(target: Target, user: string, password: string, interp: string,
                      pathBlob: string, proxyBlob: string, env: Env, existing: set<string>)
    returns (first: Option<Failure>, second: Option<Failure>)
    requires FirstHit(SearchDirs(env), "sudo", existing).Some?
    ensures first.None? && second == Some(PicklingError)
  {
    var proxy := new SudoProxy(target);
    FrameRoundTrip(READY, []);
    assert EncodeFrame(READY) + [] == EncodeFrame(READY);
    first := proxy.Start(user, password, interp, pathBlob, proxyBlob, env, existing, EncodeFrame(READY), false);
    second := proxy.Start(user, password, interp, pathBlob, proxyBlob, env, existing, EncodeFrame(READY), false);
  }
}
