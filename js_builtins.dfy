/** The parts of JavaScript's semantics the action relies on: truthiness and
    the string methods `lastIndexOf`, `split` and `join`; `split` is defined
    with a first-occurrence helper, `indexOf`. */
module JsBuiltins {
  import opened Wrappers

  /** The JavaScript values a validated property can hold. Numbers are
      modelled as integers. */
  datatype JsValue = Undefined | Null | Bool(b: bool) | Num(n: int) | Str(s: string)

  /** `!value`: the empty string, zero, `null`, `undefined` and `false`. */
  predicate IsFalsy(v: JsValue) {
    match v
    case Undefined => true
    case Null => true
    case Bool(b) => !b
    case Num(n) => n == 0
    case Str(s) => s == ""
  }

  /** A string that may be `undefined`, as a JavaScript value. */
  function StringValue(s: Option<string>): JsValue {
    match s
    case None => Undefined
    case Some(t) => Str(t)
  }

  /** A number that may be `undefined`, as a JavaScript value. */
  function NumberValue(n: Option<int>): JsValue {
    match n
    case None => Undefined
    case Some(k) => Num(k)
  }

  /** `s.lastIndexOf(c)`: the last position of `c`, or -1. */
  function LastIndexOf(s: string, c: char): (r: int)
    ensures -1 <= r < |s|
    ensures r == -1 <==> c !in s
    ensures 0 <= r ==> s[r] == c && c !in s[r + 1..]
  {
    if |s| == 0 then -1
    else if s[|s| - 1] == c then |s| - 1
    else
      var r := LastIndexOf(s[..|s| - 1], c);
      assert s == s[..|s| - 1] + [s[|s| - 1]];
      assert 0 <= r ==> s[r + 1..] == s[..|s| - 1][r + 1..] + [s[|s| - 1]];
      r
  }

  /** The first position of `c`, or -1, as `s.indexOf(c)` gives it; used by
      `Split`. */
  function IndexOf(s: string, c: char): (r: int)
    ensures -1 <= r < |s|
    ensures r == -1 <==> c !in s
    ensures 0 <= r ==> s[r] == c && c !in s[..r]
  {
    if |s| == 0 then -1
    else if s[0] == c then 0
    else
      var r := IndexOf(s[1..], c);
      assert s == [s[0]] + s[1..];
      if r == -1 then -1
      else
        assert s[..r + 1] == [s[0]] + s[1..][..r];
        r + 1
  }

  /** `s.split(c)` for a one-character separator: the pieces between the
      separators, so there is always one more piece than separators. */
  function Split(s: string, c: char): (parts: seq<string>)
    ensures |parts| >= 1
    ensures forall k :: 0 <= k < |parts| ==> c !in parts[k]
    decreases |s|
  {
    var i := IndexOf(s, c);
    if i == -1 then [s] else [s[..i]] + Split(s[i + 1..], c)
  }

  /** `parts.join(sep)`. */
  function Join(parts: seq<string>, sep: string): string {
    if |parts| == 0 then ""
    else if |parts| == 1 then parts[0]
    else parts[0] + sep + Join(parts[1..], sep)
  }

  /** Joining the pieces of a split with the separator gives back the string. */
  lemma {:induction false} JoinSplit(s: string, c: char)
    ensures Join(Split(s, c), [c]) == s
    decreases |s|
  {
    if c in s {
      var i := IndexOf(s, c);
      SplitAt(s, c, i);
      var rest := Split(s[i + 1..], c);
      assert Split(s, c)[1..] == rest;
      calc {
        Join(Split(s, c), [c]);
        s[..i] + [c] + Join(rest, [c]);
        { JoinSplit(s[i + 1..], c); }
        s[..i] + [c] + s[i + 1..];
        s;
      }
    } else {
      SplitNoSeparator(s, c);
      assert Join([s], [c]) == s;
    }
  }

  /** The first piece is the text before the first separator, and there is
      a second piece exactly when the separator occurs. */
  lemma {:induction false} SplitFirstPiece(s: string, c: char)
    ensures var parts := Split(s, c);
      && (|parts| > 1 <==> c in s)
      && |parts[0]| <= |s| && s[..|parts[0]|] == parts[0]
      && (|parts| > 1 ==> s[|parts[0]|] == c)
  {
    var i := IndexOf(s, c);
    if i != -1 {
      assert Split(s, c)[0] == s[..i];
    }
  }

  /** When the separator occurs, the string begins with the first piece, the
      separator and the second piece, and the second piece runs to the next
      separator or to the end. */
  lemma {:induction false} SplitFirstTwoPieces(s: string, c: char)
    requires c in s
    ensures var parts := Split(s, c);
      && |parts| > 1
      && |parts[0]| + 1 + |parts[1]| <= |s|
      && s[..|parts[0]| + 1 + |parts[1]|] == parts[0] + [c] + parts[1]
      && (|parts[0]| + 1 + |parts[1]| == |s| || s[|parts[0]| + 1 + |parts[1]|] == c)
  {
    var i := IndexOf(s, c);
    SplitAt(s, c, i);
    SplitFirstPiece(s[i + 1..], c);
    var rest := Split(s[i + 1..], c);
    if |rest| == 1 {
      JoinSplit(s[i + 1..], c);
    }
    SliceAround(s, i, |Split(s, c)[1]|);
  }

  /** One step of `Split` at the first separator, position `i`. */
  lemma {:induction false} SplitAt(s: string, c: char, i: int)
    requires 0 <= i == IndexOf(s, c)
    ensures Split(s, c) == [s[..i]] + Split(s[i + 1..], c)
  {
  }

  /** The first `i + 1 + n` characters are those before `i`, the one at `i`,
      then `n` more. */
  lemma {:induction false} SliceAround(s: string, i: int, n: int)
    requires 0 <= i && 0 <= n && i + 1 + n <= |s|
    ensures s[..i + 1 + n] == s[..i] + [s[i]] + s[i + 1..][..n]
  {
    assert s[..i + 1] == s[..i] + [s[i]];
    assert s[..i + 1 + n] == s[..i + 1] + s[i + 1..][..n];
  }

  /** A string with no separator splits into itself alone. */
  lemma SplitNoSeparator(s: string, c: char)
    requires c !in s
    ensures Split(s, c) == [s]
  {
  }

  /** Splitting `a + c + b` where neither piece holds `c` gives `[a, b]`. */
  lemma {:induction false} SplitTwoPieces(a: string, b: string, c: char)
    requires c !in a && c !in b
    ensures Split(a + [c] + b, c) == [a, b]
  {
    var s := a + [c] + b;
    var i := IndexOf(s, c);
    assert s[|a|] == c;
    assert i == |a| by {
      assert forall k :: 0 <= k < |a| ==> s[k] == a[k];
    }
    assert s[..i] == a && s[i + 1..] == b;
    SplitNoSeparator(b, c);
  }
}
