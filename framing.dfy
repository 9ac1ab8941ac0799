/** The length-framed wire format shared by every pipe class: a frame is the
    four-byte length word followed by that many payload bytes. `ReadFrame`
    states, as a function of the unread bytes, exactly what `read()` does in
    src/runas/base.py and src/runas/sudo_base.py. */
module Framing {
  import opened Bytes

  /** What one `read()` yields: a payload, or `EOFError` (the stream ended
      before a whole frame arrived), or Python's `ValueError` for reading a
      file object that has been closed. */
  datatype Received = Payload(data: seq<uint8>) | EndOfStream | ClosedFile

  /** What one `write(d)` does: sends the frame, fails in `struct.pack`
      (`struct.error`, the payload is too long for an `"I"` word) before
      anything is written, or fails with `ValueError` on a closed file. */
  datatype Sent = Written | Oversize | WriteOnClosed

  predicate Fits(d: seq<uint8>) { |d| < UINT32_LIMIT }

  /** The bytes `write(d)` puts on the stream. */
  function EncodeFrame(d: seq<uint8>): (f: seq<uint8>)
    requires Fits(d)
  {
    Pack32(|d|) + d
  }

  /** `read()` on a stream whose unread bytes are `s`: the outcome and the
      number of bytes consumed. Mirrors the source step by step: take up to
      four bytes, give up if fewer arrived, unpack the size, take up to that
      many bytes, give up if fewer arrived. */
  function ReadFrame(s: seq<uint8>): (r: (Received, nat))
    ensures r.1 <= |s|
    ensures !r.0.ClosedFile?
    ensures r.0.Payload? ==> r.1 == 4 + |r.0.data|
    ensures r.0.EndOfStream? ==> r.1 == |s|
  {
    var sz := Take(s, 4);
    if |sz| < 4 then (EndOfStream, |sz|)
    else
      var n := Unpack32(sz);
      var data := Take(s[4..], n);
      if |data| < n then (EndOfStream, 4 + |data|)
      else (Payload(data), 4 + n)
  }

  /** A frame written by `write(d)` is read back as `d`, consuming exactly
      `4 + |d|` bytes, whatever follows it on the stream. */
  lemma {:induction false} FrameRoundTrip(d: seq<uint8>, rest: seq<uint8>)
    requires Fits(d)
    ensures ReadFrame(EncodeFrame(d) + rest) == (Payload(d), 4 + |d|)
  {
    var s := EncodeFrame(d) + rest;
    assert Take(s, 4) == Pack32(|d|);
    UnpackPack(|d|);
    assert s[4..] == d + rest;
    assert Take(s[4..], |d|) == d;
  }

  /** Conversely, every payload `read()` returns was framed exactly as
      `write` frames it: the consumed bytes are `EncodeFrame(data)`. */
  lemma {:induction false} ReadFrameIsEncoded(s: seq<uint8>)
    requires ReadFrame(s).0.Payload?
    ensures Fits(ReadFrame(s).0.data)
    ensures s[..ReadFrame(s).1] == EncodeFrame(ReadFrame(s).0.data)
  {
    var d := ReadFrame(s).0.data;
    PackUnpack(s[..4]);
    assert s[..4 + |d|] == s[..4] + s[4..][..|d|];
  }

  /** Fewer than four bytes left: `read()` reports end of stream and
      consumes everything that is left. */
  lemma ShortPrefixIsEnd(s: seq<uint8>)
    requires |s| < 4
    ensures ReadFrame(s) == (EndOfStream, |s|)
  {
  }

  /** A whole length word but fewer body bytes than it announces:
      end of stream, never a partial payload. */
  lemma ShortBodyIsEnd(s: seq<uint8>)
    requires |s| >= 4 && Unpack32(s[..4]) > |s| - 4
    ensures ReadFrame(s) == (EndOfStream, |s|)
  {
  }

  /** Any strict prefix of a frame (the peer went away mid-frame) reads as
      end of stream. */
  lemma {:induction false} TruncatedFrameIsEnd(d: seq<uint8>, k: nat)
    requires Fits(d) && k < 4 + |d|
    ensures ReadFrame(EncodeFrame(d)[..k]) == (EndOfStream, k)
  {
    var s := EncodeFrame(d)[..k];
    if k >= 4 {
      assert s[..4] == Pack32(|d|);
      UnpackPack(|d|);
    }
  }

  /** An empty payload is a real frame, distinct from end of stream. */
  lemma EmptyPayloadIsNotEnd()
    ensures ReadFrame(EncodeFrame([])).0 == Payload([])
    ensures ReadFrame(EncodeFrame([])).0 != EndOfStream
  {
    FrameRoundTrip([], []);
    assert EncodeFrame([]) + [] == EncodeFrame([]);
  }

  predicate AllFit(ps: seq<seq<uint8>>)
  {
    forall i :: 0 <= i < |ps| ==> Fits(ps[i])
  }

  /** The bytes of `write(p)` for each `p` of `ps` in turn. */
  function Frames(ps: seq<seq<uint8>>): (s: seq<uint8>)
    requires AllFit(ps)
  {
    if ps == [] then [] else Frames(ps[..|ps| - 1]) + EncodeFrame(ps[|ps| - 1])
  }

  /** Repeated `read()` until end of stream. */
  function ReadAll(s: seq<uint8>): (ps: seq<seq<uint8>>)
    decreases |s|
  {
    match ReadFrame(s).0
    case Payload(d) => [d] + ReadAll(s[ReadFrame(s).1..])
    case _ => []
  }

  lemma {:induction false} FramesCons(p: seq<uint8>, ps: seq<seq<uint8>>)
    requires Fits(p) && AllFit(ps)
    ensures AllFit([p] + ps)
    ensures Frames([p] + ps) == EncodeFrame(p) + Frames(ps)
  {
    if ps != [] {
      var init := ps[..|ps| - 1];
      assert ([p] + ps)[..|ps|] == [p] + init;
      FramesCons(p, init);
    }
  }

  /** FIFO: `k` writes followed by reads of the transferred bytes give back
      the `k` payloads in the order they were written, then end of stream. */
  lemma {:induction false} ReadAllFrames(ps: seq<seq<uint8>>)
    requires AllFit(ps)
    ensures ReadAll(Frames(ps)) == ps
  {
    if ps == [] {
      assert ReadFrame([]).0 == EndOfStream;
    } else {
      var tail := ps[1..];
      assert ps == [ps[0]] + tail;
      FramesCons(ps[0], tail);
      FrameRoundTrip(ps[0], Frames(tail));
      var s := Frames(ps);
      assert s[4 + |ps[0]|..] == Frames(tail);
      ReadAllFrames(tail);
    }
  }
}
