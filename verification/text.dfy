/** The Python string operations the protocol handler relies on: `str(int)`, `str.split` and
    `str.strip` with a set of characters, together with the leftmost search `split` cuts at and
    `str.join` as the inverse of `split`. */
module Text {
  import opened Wrappers

  predicate IsDigit(c: char) {
    '0' <= c <= '9'
  }

  predicate AllDigits(s: string) {
    forall k :: 0 <= k < |s| ==> IsDigit(s[k])
  }

  function DigitChar(d: nat): (c: char)
    requires d < 10
    ensures IsDigit(c)
  {
    ('0' as int + d) as char
  }

  function DigitValue(c: char): nat
    requires IsDigit(c)
  {
    c as int - '0' as int
  }

  /** `str(n)` for a non-negative integer: its decimal digits. */
  function NatToString(n: nat): (s: string)
    ensures |s| >= 1 && AllDigits(s)
    decreases n
  {
    if n < 10 then [DigitChar(n)] else NatToString(n / 10) + [DigitChar(n % 10)]
  }

  /** The value a string of decimal digits denotes. */
  function DigitsValue(s: string): nat
    requires AllDigits(s)
    decreases |s|
  {
    if s == [] then 0 else DigitsValue(s[..|s| - 1]) * 10 + DigitValue(s[|s| - 1])
  }

  /** Reading back what `str` wrote gives the number again. */
  lemma {:induction false} NatToStringRoundTrip(n: nat)
    ensures DigitsValue(NatToString(n)) == n
    decreases n
  {
    var s := NatToString(n);
    if n >= 10 {
      NatToStringRoundTrip(n / 10);
      assert s[..|s| - 1] == NatToString(n / 10);
    }
  }

  /** `str(i)` for any integer: a minus sign, then the digits of its magnitude. */
  function IntToString(i: int): string {
    if i < 0 then "-" + NatToString(-i) else NatToString(i)
  }

  /** The first character of `str(i)` is a minus sign exactly for a negative `i`. */
  lemma IntToStringSign(i: int)
    ensures |IntToString(i)| >= 1 && (IntToString(i)[0] == '-' <==> i < 0)
  {
    if i >= 0 {
      assert IsDigit(NatToString(i)[0]);
    }
  }

  lemma NatToStringInjective(a: nat, b: nat)
    requires NatToString(a) == NatToString(b)
    ensures a == b
  {
    NatToStringRoundTrip(a);
    NatToStringRoundTrip(b);
  }

  /** Different integers print differently, so a formatted command determines its arguments. */
  lemma IntToStringInjective(a: int, b: int)
    requires IntToString(a) == IntToString(b)
    ensures a == b
  {
    IntToStringSign(a);
    IntToStringSign(b);
    if a < 0 {
      NegativeDigits(a);
      NegativeDigits(b);
      NatToStringInjective(-a, -b);
    } else {
      NatToStringInjective(a, b);
    }
  }

  lemma NegativeDigits(i: int)
    requires i < 0
    ensures IntToString(i)[1..] == NatToString(-i)
  {
  }

  /** `sep` occurs in `s` starting at index `i`. */
  predicate OccursAt(s: string, sep: string, i: nat) {
    i + |sep| <= |s| && s[i..i + |sep|] == sep
  }

  lemma OccursAtShift(s: string, sep: string, j: nat)
    requires s != []
    ensures OccursAt(s, sep, j + 1) == OccursAt(s[1..], sep, j)
  {
    if j + 1 + |sep| <= |s| {
      assert s[j + 1..j + 1 + |sep|] == s[1..][j..j + |sep|];
    }
  }

  /** The leftmost occurrence of `sep` in `s`, if there is one: where `split` cuts. */
  function IndexOf(s: string, sep: string): Option<nat>
    decreases |s|
  {
    if |s| < |sep| then None
    else if s[..|sep|] == sep then Some(0)
    else match IndexOf(s[1..], sep)
      case None => None
      case Some(j) => Some(j + 1)
  }

  /** What the search promises: the index it returns is an occurrence and none lies before it;
      when it finds nothing there is no occurrence at all. */
  lemma {:induction false} IndexOfLeftmost(s: string, sep: string)
    ensures IndexOf(s, sep).Some? ==> OccursAt(s, sep, IndexOf(s, sep).value)
    ensures IndexOf(s, sep).Some? ==> forall j: nat :: j < IndexOf(s, sep).value ==> !OccursAt(s, sep, j)
    ensures IndexOf(s, sep).None? ==> forall j: nat :: !OccursAt(s, sep, j)
    decreases |s|
  {
    if |s| >= |sep| && s[..|sep|] != sep {
      IndexOfLeftmost(s[1..], sep);
      assert !OccursAt(s, sep, 0);
      forall j: nat | j > 0
        ensures OccursAt(s, sep, j) == OccursAt(s[1..], sep, j - 1)
      {
        OccursAtShift(s, sep, j - 1);
      }
    }
  }

  /** An occurrence found in `s` is still the leftmost one once text is appended. */
  lemma {:induction false} IndexOfExtend(s: string, x: string, sep: string, i: nat)
    requires IndexOf(s, sep) == Some(i)
    ensures IndexOf(s + x, sep) == Some(i)
    decreases |s|
  {
    assert |s| >= |sep|;
    assert (s + x)[..|sep|] == s[..|sep|];
    if s[..|sep|] != sep {
      IndexOfExtend(s[1..], x, sep, i - 1);
      assert (s + x)[1..] == s[1..] + x;
    }
  }

  /** `s.split(sep)` for a non-empty separator: the pieces between successive leftmost,
      non-overlapping occurrences of `sep`. */
  function Split(s: string, sep: string): (parts: seq<string>)
    requires |sep| > 0
    ensures |parts| >= 1
    decreases |s|
  {
    match IndexOf(s, sep)
    case None => [s]
    case Some(i) =>
      assert OccursAt(s, sep, i) by {
        IndexOfLeftmost(s, sep);
      }
      [s[..i]] + Split(s[i + |sep|..], sep)
  }

  /** No piece of a split contains the separator. */
  lemma {:induction false} SplitPiecesAreFree(s: string, sep: string)
    requires |sep| > 0
    ensures forall k: nat, j: nat :: k < |Split(s, sep)| ==> !OccursAt(Split(s, sep)[k], sep, j)
    decreases |s|
  {
    IndexOfLeftmost(s, sep);
    match IndexOf(s, sep)
    case None =>
    case Some(i) =>
      var rest := s[i + |sep|..];
      SplitPiecesAreFree(rest, sep);
      forall j: nat
        ensures !OccursAt(s[..i], sep, j)
      {
        assert j + |sep| <= i ==> s[..i][j..j + |sep|] == s[j..j + |sep|];
        assert j < i ==> !OccursAt(s, sep, j);
      }
      var parts := Split(s, sep);
      assert parts == [s[..i]] + Split(rest, sep);
      assert forall k :: 1 <= k < |parts| ==> parts[k] == Split(rest, sep)[k - 1];
  }

  /** `sep.join(parts)`, the inverse of `split`. */
  function Join(parts: seq<string>, sep: string): string
    decreases |parts|
  {
    if |parts| == 0 then ""
    else if |parts| == 1 then parts[0]
    else parts[0] + sep + Join(parts[1..], sep)
  }

  /** Splitting loses nothing: joining the pieces with the separator gives the text back. */
  lemma {:induction false} JoinSplit(s: string, sep: string)
    requires |sep| > 0
    ensures Join(Split(s, sep), sep) == s
    decreases |s|
  {
    if IndexOf(s, sep).Some? {
      JoinSplitStep(s, sep);
    }
  }

  lemma {:induction false} JoinSplitStep(s: string, sep: string)
    requires |sep| > 0 && IndexOf(s, sep).Some?
    ensures Join(Split(s, sep), sep) == s
    decreases |s|, 0
  {
    var i := IndexOf(s, sep).value;
    SplitAtFirst(s, sep, i);
    var rest := s[i + |sep|..];
    JoinSplit(rest, sep);
    JoinCons(s[..i], Split(rest, sep), sep);
  }

  /** Where the search succeeds, `split` cuts there. */
  lemma SplitAtFirst(s: string, sep: string, i: nat)
    requires |sep| > 0 && IndexOf(s, sep) == Some(i)
    ensures i + |sep| <= |s| && s == s[..i] + sep + s[i + |sep|..]
    ensures Split(s, sep) == [s[..i]] + Split(s[i + |sep|..], sep)
  {
    IndexOfLeftmost(s, sep);
    assert s[i..i + |sep|] == sep;
  }

  lemma JoinCons(p: string, ps: seq<string>, sep: string)
    requires |ps| >= 1
    ensures Join([p] + ps, sep) == p + sep + Join(ps, sep)
  {
    assert ([p] + ps)[1..] == ps;
  }

  /** Tokens, each followed by the separator: `t1 + sep + ... + tk + sep`. */
  function Lines(ts: seq<string>, sep: string): string
    decreases |ts|
  {
    if ts == [] then "" else ts[0] + sep + Lines(ts[1..], sep)
  }

  /** No occurrence of `sep` starts inside `t` when `t` is followed by `sep`. */
  predicate Separable(t: string, sep: string) {
    forall j: nat :: j < |t| ==> !OccursAt(t + sep, sep, j)
  }

  /** A separable token followed by the separator splits off as the first piece. */
  lemma SplitFirstToken(t: string, sep: string, after: string)
    requires |sep| > 0 && Separable(t, sep)
    ensures Split(t + sep + after, sep) == [t] + Split(after, sep)
  {
    var s := t + sep + after;
    assert s == (t + sep) + after;
    IndexOfLeftmost(t + sep, sep);
    assert (t + sep)[|t|..|t| + |sep|] == sep;
    assert OccursAt(t + sep, sep, |t|);
    IndexOfExtend(t + sep, after, sep, |t|);
    assert s[..|t|] == t;
    assert s[|t| + |sep|..] == after;
  }

  lemma ConsConcat<T>(xs: seq<T>, ys: seq<T>)
    requires xs != []
    ensures [xs[0]] + (xs[1..] + ys) == xs + ys
  {
    assert xs == [xs[0]] + xs[1..];
  }

  lemma LinesCons(ts: seq<string>, sep: string, tail: string)
    requires ts != []
    ensures Lines(ts, sep) + tail == ts[0] + sep + (Lines(ts[1..], sep) + tail)
  {
  }

  /** Splitting terminated tokens gives the tokens back, then whatever the rest splits into. */
  lemma {:induction false} SplitLines(ts: seq<string>, sep: string, tail: string)
    requires |sep| > 0
    requires forall k :: 0 <= k < |ts| ==> Separable(ts[k], sep)
    ensures Split(Lines(ts, sep) + tail, sep) == ts + Split(tail, sep)
    decreases |ts|
  {
    if ts == [] {
      assert Lines(ts, sep) + tail == tail;
    } else {
      SplitLinesStep(ts, sep, tail);
    }
  }

  lemma {:induction false} SplitLinesStep(ts: seq<string>, sep: string, tail: string)
    requires |sep| > 0 && ts != []
    requires forall k :: 0 <= k < |ts| ==> Separable(ts[k], sep)
    ensures Split(Lines(ts, sep) + tail, sep) == ts + Split(tail, sep)
    decreases |ts|, 0
  {
    var after := Lines(ts[1..], sep) + tail;
    LinesCons(ts, sep, tail);
    assert Separable(ts[0], sep);
    SplitFirstToken(ts[0], sep, after);
    assert forall k :: 0 <= k < |ts| - 1 ==> ts[1..][k] == ts[k + 1];
    SplitLines(ts[1..], sep, tail);
    ConsConcat(ts, Split(tail, sep));
  }

  /** The characters of `s` as a set, the way `strip` reads its argument. */
  function CharsOf(s: string): set<char> {
    set k | 0 <= k < |s| :: s[k]
  }

  /** `s.lstrip(chars)`. */
  function LStrip(s: string, cs: set<char>): (r: string)
    ensures |r| <= |s| && r == s[|s| - |r|..]
    ensures forall k :: 0 <= k < |s| - |r| ==> s[k] in cs
    ensures r == [] || r[0] !in cs
    decreases |s|
  {
    if s != [] && s[0] in cs then
      var r := LStrip(s[1..], cs);
      assert s[1..][|s| - 1 - |r|..] == s[|s| - |r|..];
      assert forall k :: 1 <= k < |s| - |r| ==> s[k] == s[1..][k - 1];
      r
    else s
  }

  /** `s.rstrip(chars)`. */
  function RStrip(s: string, cs: set<char>): (r: string)
    ensures |r| <= |s| && r == s[..|r|]
    ensures forall k :: |r| <= k < |s| ==> s[k] in cs
    ensures r == [] || r[|r| - 1] !in cs
    decreases |s|
  {
    if s != [] && s[|s| - 1] in cs then RStrip(s[..|s| - 1], cs) else s
  }

  /** `s.strip(chars)`: what is left once every leading and every trailing character that is
      in `cs` is removed. */
  function Strip(s: string, cs: set<char>): (r: string)
    ensures r == [] || (r[0] !in cs && r[|r| - 1] !in cs)
  {
    RStrip(LStrip(s, cs), cs)
  }

  /** What `strip` keeps is one slice of `s`, and only characters of `cs` lie outside it. */
  lemma StripIsSlice(s: string, cs: set<char>)
    ensures var i := |s| - |LStrip(s, cs)|;
            var r := Strip(s, cs);
            i + |r| <= |s| && r == s[i..i + |r|] &&
            (forall k :: 0 <= k < i ==> s[k] in cs) &&
            (forall k :: i + |r| <= k < |s| ==> s[k] in cs)
  {
    var l := LStrip(s, cs);
    var r := RStrip(l, cs);
    SliceOfSuffix(s, l, r, |s| - |l|, cs);
  }

  lemma SliceOfSuffix(s: string, l: string, r: string, i: nat, cs: set<char>)
    requires i <= |s| && l == s[i..] && |r| <= |l| && r == l[..|r|]
    requires forall k :: |r| <= k < |l| ==> l[k] in cs
    ensures r == s[i..i + |r|]
    ensures forall k :: i + |r| <= k < |s| ==> s[k] in cs
  {
    forall k | i + |r| <= k < |s|
      ensures s[k] in cs
    {
      assert s[k] == l[k - i];
    }
  }

  /** Stripping undoes padding: text whose ends are not in `cs`, padded on both sides with
      characters of `cs`, strips back to itself. */
  lemma StripPadding(pre: string, core: string, post: string, cs: set<char>)
    requires forall k :: 0 <= k < |pre| ==> pre[k] in cs
    requires forall k :: 0 <= k < |post| ==> post[k] in cs
    requires core == [] || (core[0] !in cs && core[|core| - 1] !in cs)
    ensures Strip(pre + core + post, cs) == core
  {
    var s := pre + core + post;
    var l := LStrip(s, cs);
    var m := |s| - |l|;
    assert l == [] || l[0] == s[m];
    assert forall k :: 0 <= k < |s| ==> s[k] in cs || (|pre| <= k < |pre| + |core|);
    if core != [] {
      assert s[|pre|] == core[0];
      assert m == |pre|;
      assert l == core + post;
      var r := RStrip(l, cs);
      assert l[|core| - 1] == core[|core| - 1];
      assert forall k :: |core| <= k < |l| ==> l[k] in cs;
      assert r == core;
    }
  }
}
