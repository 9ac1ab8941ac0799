/** Python's `str.split(sep)` and `sep.join(parts)` on strings, and how
    they undo each other. */
module Text {
  /** `s.split(sep)`: the pieces between separators, an empty piece for each
      pair of adjacent separators and at either end. */
  function Split(s: string, sep: char): (parts: seq<string>)
    ensures |parts| >= 1
    ensures forall i :: 0 <= i < |parts| ==> sep !in parts[i]
    ensures |parts| == Count(s, sep) + 1
  {
    if s == [] then [""]
    else
      var rest := Split(s[1..], sep);
      if s[0] == sep then [""] + rest
      else [[s[0]] + rest[0]] + rest[1..]
  }

  function Count(s: string, c: char): nat
  {
    if s == [] then 0 else (if s[0] == c then 1 else 0) + Count(s[1..], c)
  }

  /** `sep.join(parts)`. */
  function Join(parts: seq<string>, sep: char): string
    requires |parts| >= 1
  {
    if |parts| == 1 then parts[0] else parts[0] + [sep] + Join(parts[1..], sep)
  }

  /** Splitting loses nothing: joining the pieces with the separator gives
      `s`. */
  lemma {:induction false} JoinSplit(s: string, sep: char)
    ensures Join(Split(s, sep), sep) == s
  {
    if s != [] {
      var rest := Split(s[1..], sep);
      JoinSplit(s[1..], sep);
      if s[0] == sep {
        assert Split(s, sep) == [""] + rest;
        assert Join(Split(s, sep), sep) == "" + [sep] + Join(rest, sep);
        assert s == [sep] + s[1..];
      } else {
        var first := [s[0]] + rest[0];
        assert Split(s, sep) == [first] + rest[1..];
        if |rest| == 1 {
          assert Join(Split(s, sep), sep) == first;
          assert Join(rest, sep) == rest[0];
        } else {
          assert ([first] + rest[1..])[1..] == rest[1..];
          assert rest == [rest[0]] + rest[1..];
          assert Join(rest, sep) == rest[0] + [sep] + Join(rest[1..], sep);
        }
        assert s == [s[0]] + s[1..];
      }
    }
  }

  /** And conversely: separator-free pieces joined with the separator split
      back into the same pieces, empty ones included. */
  lemma {:induction false} SplitJoin(parts: seq<string>, sep: char)
    requires |parts| >= 1
    requires forall i :: 0 <= i < |parts| ==> sep !in parts[i]
    ensures Split(Join(parts, sep), sep) == parts
    decreases |Join(parts, sep)|, |parts|
  {
    var p := parts[0];
    if |parts| == 1 {
      SplitWord(p, [], sep);
      assert p + [] == p;
      assert p + Split([], sep)[0] == p;
    } else {
      var tail := Join(parts[1..], sep);
      SplitJoin(parts[1..], sep);
      assert Join(parts, sep) == p + ([sep] + tail);
      SplitWord(p, [sep] + tail, sep);
      assert Split([sep] + tail, sep) == [""] + Split(tail, sep) by {
        assert ([sep] + tail)[1..] == tail;
      }
      assert p + Split([sep] + tail, sep)[0] == p;
      assert Split([sep] + tail, sep)[1..] == Split(tail, sep);
      assert parts == [p] + parts[1..];
    }
  }

  /** A separator-free word in front of `rest` joins the first piece of
      `rest`. */
  lemma {:induction false} SplitWord(w: string, rest: string, sep: char)
    requires sep !in w
    ensures Split(w + rest, sep) == [w + Split(rest, sep)[0]] + Split(rest, sep)[1..]
    decreases |w|
  {
    if w != [] {
      var s := w + rest;
      assert s[1..] == w[1..] + rest;
      SplitWord(w[1..], rest, sep);
      assert [w[0]] + (w[1..] + Split(rest, sep)[0]) == w + Split(rest, sep)[0];
    } else {
      assert w + rest == rest;
      assert w + Split(rest, sep)[0] == Split(rest, sep)[0];
      assert Split(rest, sep) == [Split(rest, sep)[0]] + Split(rest, sep)[1..];
    }
  }
}
