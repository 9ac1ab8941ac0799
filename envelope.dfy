module Wrappers {
  datatype Option<T> = None | Some(value: T)
  datatype Result<T, E> = Success(value: T) | Failure(error: E)
}

/** The messages that cross the pipe, and their byte encoding. The source
    pickles arbitrary Python objects; the model fixes the shapes it actually
    sends (the strings "CLOSE" and "CLOSING", `(name, args)` calls and
    `(success, result)` replies) and encodes them with a tagged,
    length-prefixed format whose decoder inverts it. Arguments and results
    are opaque pickled blobs, except exceptions, which the caller raises. */
module Envelope {
  import opened Bytes
  import opened Wrappers

  datatype Value =
    | Blob(bytes: seq<uint8>)
    | Exc(kind: string, message: string)

  datatype Message =
    | CloseRequest                              // pickle.dumps("CLOSE")
    | ClosingReply                              // pickle.dumps("CLOSING")
    | Call(name: string, args: seq<Value>)      // pickle.dumps((name, args))
    | Reply(success: bool, payload: Value)      // pickle.dumps((success, result))

  /** Unsigned base-128 number, low group first, high bit = more follows. */
  function Varint(n: nat): (b: seq<uint8>)
    decreases n
  {
    if n < 128 then [n as uint8] else [(128 + n % 128) as uint8] + Varint(n / 128)
  }

  function ParseVarint(s: seq<uint8>): (r: Option<(nat, seq<uint8>)>)
    decreases |s|
    ensures r.Some? ==> |r.value.1| < |s|
  {
    if s == [] then None
    else if s[0] < 128 then Some((s[0] as nat, s[1..]))
    else match ParseVarint(s[1..])
      case None => None
      case Some((m, rest)) => Some(((s[0] as int - 128) + 128 * m, rest))
  }

  lemma {:induction false} VarintRoundTrip(n: nat, rest: seq<uint8>)
    ensures ParseVarint(Varint(n) + rest) == Some((n, rest))
    decreases n
  {
    if n >= 128 {
      var s := Varint(n) + rest;
      assert s[1..] == Varint(n / 128) + rest;
      VarintRoundTrip(n / 128, rest);
    }
  }

  predicate IsCharCode(n: nat)
  {
    n < 0xD800 || 0xE000 <= n < 0x11_0000
  }

  function EncodeChars(s: string): seq<uint8>
  {
    if s == [] then [] else Varint(s[0] as nat) + EncodeChars(s[1..])
  }

  function ParseChars(count: nat, s: seq<uint8>): (r: Option<(string, seq<uint8>)>)
    decreases count
    ensures r.Some? ==> |r.value.1| <= |s|
  {
    if count == 0 then Some(([], s))
    else match ParseVarint(s)
      case None => None
      case Some((c, rest)) =>
        if !IsCharCode(c) then None
        else match ParseChars(count - 1, rest)
          case None => None
          case Some((cs, rest')) => Some(([c as char] + cs, rest'))
  }

  lemma {:induction false} CharsRoundTrip(s: string, rest: seq<uint8>)
    ensures ParseChars(|s|, EncodeChars(s) + rest) == Some((s, rest))
  {
    if s != [] {
      var c := s[0] as nat;
      var tail := EncodeChars(s[1..]) + rest;
      assert EncodeChars(s) + rest == Varint(c) + tail;
      VarintRoundTrip(c, tail);
      assert IsCharCode(c);
      CharsRoundTrip(s[1..], rest);
      assert ParseChars(|s| - 1, tail) == Some((s[1..], rest));
      assert [c as char] + s[1..] == s;
    } else {
      assert EncodeChars(s) + rest == rest;
    }
  }

  function EncodeString(s: string): seq<uint8>
  {
    Varint(|s|) + EncodeChars(s)
  }

  function ParseString(s: seq<uint8>): (r: Option<(string, seq<uint8>)>)
    ensures r.Some? ==> |r.value.1| < |s|
  {
    match ParseVarint(s)
    case None => None
    case Some((n, rest)) => ParseChars(n, rest)
  }

  lemma {:induction false} StringRoundTrip(s: string, rest: seq<uint8>)
    ensures ParseString(EncodeString(s) + rest) == Some((s, rest))
  {
    assert EncodeString(s) + rest == Varint(|s|) + (EncodeChars(s) + rest);
    VarintRoundTrip(|s|, EncodeChars(s) + rest);
    CharsRoundTrip(s, rest);
  }

  function EncodeValue(v: Value): seq<uint8>
  {
    match v
    case Blob(b) => [0] + Varint(|b|) + b
    case Exc(k, m) => [1] + EncodeString(k) + EncodeString(m)
  }

  function ParseValue(s: seq<uint8>): (r: Option<(Value, seq<uint8>)>)
    ensures r.Some? ==> |r.value.1| < |s|
  {
    if s == [] then None
    else if s[0] == 0 then
      match ParseVarint(s[1..])
      case None => None
      case Some((n, rest)) => if n <= |rest| then Some((Blob(rest[..n]), rest[n..])) else None
    else if s[0] == 1 then
      match ParseString(s[1..])
      case None => None
      case Some((k, rest)) =>
        match ParseString(rest)
        case None => None
        case Some((m, rest')) => Some((Exc(k, m), rest'))
    else None
  }

  lemma {:induction false} ValueRoundTrip(v: Value, rest: seq<uint8>)
    ensures ParseValue(EncodeValue(v) + rest) == Some((v, rest))
  {
    match v
    case Blob(b) => BlobRoundTrip(b, rest);
    case Exc(k, m) => ExcRoundTrip(k, m, rest);
  }

  lemma {:induction false} BlobRoundTrip(b: seq<uint8>, rest: seq<uint8>)
    ensures ParseValue(EncodeValue(Blob(b)) + rest) == Some((Blob(b), rest))
  {
    var s := EncodeValue(Blob(b)) + rest;
    assert s[0] == 0;
    assert s[1..] == Varint(|b|) + (b + rest);
    VarintRoundTrip(|b|, b + rest);
    assert (b + rest)[..|b|] == b;
    assert (b + rest)[|b|..] == rest;
  }

  lemma {:induction false} ExcRoundTrip(k: string, m: string, rest: seq<uint8>)
    ensures ParseValue(EncodeValue(Exc(k, m)) + rest) == Some((Exc(k, m), rest))
  {
    var s := EncodeValue(Exc(k, m)) + rest;
    assert s[0] == 1;
    assert s[1..] == EncodeString(k) + (EncodeString(m) + rest);
    StringRoundTrip(k, EncodeString(m) + rest);
    StringRoundTrip(m, rest);
  }

  function EncodeValues(vs: seq<Value>): seq<uint8>
  {
    if vs == [] then [] else EncodeValue(vs[0]) + EncodeValues(vs[1..])
  }

  function ParseValues(count: nat, s: seq<uint8>): (r: Option<(seq<Value>, seq<uint8>)>)
    decreases count
  {
    if count == 0 then Some(([], s))
    else match ParseValue(s)
      case None => None
      case Some((v, rest)) =>
        match ParseValues(count - 1, rest)
        case None => None
        case Some((vs, rest')) => Some(([v] + vs, rest'))
  }

  lemma {:induction false} ValuesRoundTrip(vs: seq<Value>, rest: seq<uint8>)
    ensures ParseValues(|vs|, EncodeValues(vs) + rest) == Some((vs, rest))
  {
    if vs != [] {
      var v, more := vs[0], vs[1..];
      var tail := EncodeValues(more) + rest;
      var s := EncodeValues(vs) + rest;
      assert s == EncodeValue(v) + tail;
      assert ParseValue(s) == Some((v, tail)) by {
        ValueRoundTrip(v, tail);
      }
      assert ParseValues(|more|, tail) == Some((more, rest)) by {
        ValuesRoundTrip(more, rest);
      }
      assert [v] + more == vs;
    } else {
      assert EncodeValues(vs) + rest == rest;
    }
  }

  /** The stand-in for `pickle.dumps`. */
  function Pickle(m: Message): (b: seq<uint8>)
    ensures |b| >= 1
  {
    match m
    case CloseRequest => [0]
    case ClosingReply => [1]
    case Call(name, args) => [2] + EncodeString(name) + Varint(|args|) + EncodeValues(args)
    case Reply(ok, payload) => [3] + [if ok then 1 else 0] + EncodeValue(payload)
  }

  /** The stand-in for `pickle.loads`: `None` for bytes it cannot decode
      (Python raises `UnpicklingError` or a similar error). */
  function Unpickle(b: seq<uint8>): (r: Option<Message>)
  {
    if b == [] then None
    else if b == [0] then Some(CloseRequest)
    else if b == [1] then Some(ClosingReply)
    else if b[0] == 2 then
      match ParseString(b[1..])
      case None => None
      case Some((name, rest)) =>
        match ParseVarint(rest)
        case None => None
        case Some((n, rest')) =>
          match ParseValues(n, rest')
          case None => None
          case Some((args, rest'')) => if rest'' == [] then Some(Call(name, args)) else None
    else if b[0] == 3 && |b| >= 2 && b[1] <= 1 then
      match ParseValue(b[2..])
      case None => None
      case Some((v, rest)) => if rest == [] then Some(Reply(b[1] == 1, v)) else None
    else None
  }

  /** Decoding inverts encoding, so distinct messages have distinct bytes. */
  lemma {:induction false} PickleRoundTrip(m: Message)
    ensures Unpickle(Pickle(m)) == Some(m)
  {
    var b := Pickle(m);
    match m
    case CloseRequest =>
    case ClosingReply =>
    case Call(name, args) =>
      var tail := Varint(|args|) + EncodeValues(args);
      assert b[1..] == EncodeString(name) + tail;
      StringRoundTrip(name, tail);
      VarintRoundTrip(|args|, EncodeValues(args) + []);
      assert EncodeValues(args) + [] == EncodeValues(args);
      ValuesRoundTrip(args, []);
    case Reply(ok, payload) =>
      assert b[2..] == EncodeValue(payload) + [];
      ValueRoundTrip(payload, []);
  }

  lemma PickleInjective(m1: Message, m2: Message)
    requires Pickle(m1) == Pickle(m2)
    ensures m1 == m2
  {
    PickleRoundTrip(m1);
    PickleRoundTrip(m2);
  }
}
