/** The few Python `str` operations the core relies on: `strip`, whitespace `split()`,
    `split(sep)`, `join`, `in` on strings, `lower` and `str(int)`. */
module Text {

  /** Python's `str.isspace`, restricted to the ASCII whitespace characters. */
  predicate IsSpace(c: char) {
    c == ' ' || c == '\t' || c == '\n' || c == '\r' || c == '\U{000B}' || c == '\U{000C}'
    || ('\U{001C}' <= c <= '\U{001F}')
  }

  predicate IsBlank(s: string) {
    forall i :: 0 <= i < |s| ==> IsSpace(s[i])
  }

  predicate NoSpace(s: string) {
    forall i :: 0 <= i < |s| ==> !IsSpace(s[i])
  }

  function TrimLeft(s: string): (r: string)
    ensures |r| <= |s|
    ensures r == [] || !IsSpace(r[0])
  {
    if s != [] && IsSpace(s[0]) then TrimLeft(s[1..]) else s
  }

  function TrimRight(s: string): (r: string)
    ensures |r| <= |s|
  {
    if s != [] && IsSpace(s[|s| - 1]) then TrimRight(s[..|s| - 1]) else s
  }

  /** `lstrip` keeps a suffix and removes only whitespace. */
  lemma {:induction false} TrimLeftFacts(s: string)
    ensures TrimLeft(s) == s[|s| - |TrimLeft(s)|..]
    ensures forall i :: 0 <= i < |s| - |TrimLeft(s)| ==> IsSpace(s[i])
  {
    if s != [] && IsSpace(s[0]) {
      TrimLeftFacts(s[1..]);
      forall i | 1 <= i < |s| - |TrimLeft(s)|
        ensures IsSpace(s[i])
      {
        assert s[i] == s[1..][i - 1];
      }
    }
  }

  /** `rstrip` keeps a prefix, removes only whitespace and leaves none at the end. */
  lemma {:induction false} TrimRightFacts(s: string)
    ensures TrimRight(s) == s[..|TrimRight(s)|]
    ensures TrimRight(s) == [] || !IsSpace(TrimRight(s)[|TrimRight(s)| - 1])
    ensures forall i :: |TrimRight(s)| <= i < |s| ==> IsSpace(s[i])
  {
    if s != [] && IsSpace(s[|s| - 1]) {
      var p := s[..|s| - 1];
      TrimRightFacts(p);
      forall i | |TrimRight(s)| <= i < |s| - 1
        ensures IsSpace(s[i])
      {
        assert s[i] == p[i];
      }
    }
  }

  /** Python's `s.strip()`. */
  function Strip(s: string): string {
    TrimRight(TrimLeft(s))
  }

  /** `s.strip()` is empty exactly when `s` is blank, which is how the source tests "not filled in". */
  lemma StripEmptyIffBlank(s: string)
    ensures Strip(s) == [] <==> IsBlank(s)
  {
    var l := TrimLeft(s);
    TrimLeftFacts(s);
    TrimRightFacts(l);
    if l != [] {
      assert !IsSpace(l[0]) && l[0] == s[|s| - |l|];
      assert TrimRight(l) != [];
    }
  }

  /** Stripping leaves no surrounding whitespace. */
  lemma StripHasNoSurroundingSpace(s: string)
    ensures Strip(s) == [] || (!IsSpace(Strip(s)[0]) && !IsSpace(Strip(s)[|Strip(s)| - 1]))
  {
    var l := TrimLeft(s);
    var r := TrimRight(l);
    TrimRightFacts(l);
    if r != [] {
      assert r[0] == l[0];
    }
  }

  /** Length of the leading run of non-whitespace characters. */
  function TokenEnd(t: string): (n: nat)
    ensures n <= |t|
  {
    if t == [] || IsSpace(t[0]) then 0 else 1 + TokenEnd(t[1..])
  }

  /** The leading run holds no whitespace and stops at whitespace or at the end. */
  lemma {:induction false} TokenEndFacts(t: string)
    ensures forall i :: 0 <= i < TokenEnd(t) ==> !IsSpace(t[i])
    ensures TokenEnd(t) < |t| ==> IsSpace(t[TokenEnd(t)])
  {
    if t != [] && !IsSpace(t[0]) {
      TokenEndFacts(t[1..]);
      forall i | 0 < i < TokenEnd(t)
        ensures !IsSpace(t[i])
      {
        assert t[i] == t[1..][i - 1];
      }
      if TokenEnd(t) < |t| {
        assert t[TokenEnd(t)] == t[1..][TokenEnd(t) - 1];
      }
    }
  }

  /** Python's `s.split()` with no argument: the maximal runs of non-whitespace characters. */
  function Words(s: string): seq<string>
    decreases |s|
  {
    var t := TrimLeft(s);
    if t == [] then []
    else
      var n := TokenEnd(t);
      [t[..n]] + Words(t[n..])
  }

  /** Every word of `s.split()` is non-empty and free of whitespace. */
  lemma {:induction false} WordsAreWords(s: string)
    ensures forall i :: 0 <= i < |Words(s)| ==> Words(s)[i] != [] && NoSpace(Words(s)[i])
    decreases |s|
  {
    var t := TrimLeft(s);
    if t != [] {
      var n := TokenEnd(t);
      TokenEndFacts(t);
      assert NoSpace(t[..n]) by {
        forall i | 0 <= i < n
          ensures !IsSpace(t[..n][i])
        {
          assert t[..n][i] == t[i];
        }
      }
      WordsAreWords(t[n..]);
      ConsWord(t[..n], Words(t[n..]));
    }
  }

  lemma ConsWord(w: string, ws: seq<string>)
    requires w != [] && NoSpace(w)
    requires forall i :: 0 <= i < |ws| ==> ws[i] != [] && NoSpace(ws[i])
    ensures forall i :: 0 <= i < |[w] + ws| ==> ([w] + ws)[i] != [] && NoSpace(([w] + ws)[i])
  {
    forall i | 0 <= i < |[w] + ws|
      ensures ([w] + ws)[i] != [] && NoSpace(([w] + ws)[i])
    {
      if i > 0 {
        assert ([w] + ws)[i] == ws[i - 1];
      }
    }
  }

  /** Python's `sep.join(parts)`. */
  function Join(parts: seq<string>, sep: string): string {
    if |parts| == 0 then ""
    else if |parts| == 1 then parts[0]
    else parts[0] + sep + Join(parts[1..], sep)
  }

  lemma TrimLeftOfSpace(x: string)
    ensures TrimLeft([' '] + x) == TrimLeft(x)
  {
    assert ([' '] + x)[1..] == x;
  }

  lemma TokenEndOfWord(w: string, rest: string)
    requires NoSpace(w)
    requires rest == [] || IsSpace(rest[0])
    ensures TokenEnd(w + rest) == |w|
  {
    var t := w + rest;
    assert forall i :: 0 <= i < |w| ==> t[i] == w[i];
    if |w| < |t| {
      assert t[|w|] == rest[0];
    }
    TokenEndAt(t, |w|);
  }

  /** The leading run ends at any `n` before which there is no whitespace and at which there is
      whitespace or the end. */
  lemma TokenEndAt(t: string, n: nat)
    requires n <= |t| && forall i :: 0 <= i < n ==> !IsSpace(t[i])
    requires n < |t| ==> IsSpace(t[n])
    ensures TokenEnd(t) == n
  {
    TokenEndFacts(t);
  }

  /** A single word splits to itself. */
  lemma WordsOfWord(w: string)
    requires w != [] && NoSpace(w)
    ensures Words(w) == [w]
  {
    assert TrimLeft(w) == w;
    TokenEndOfWord(w, "");
    assert w + "" == w;
    assert w[|w|..] == [];
  }

  /** A word followed by a space splits off as the first word. */
  lemma WordsOfWordThenSpace(w: string, rest: string)
    requires w != [] && NoSpace(w)
    ensures Words(w + ([' '] + rest)) == [w] + Words(rest)
  {
    var s := w + ([' '] + rest);
    assert TrimLeft(s) == s;
    TokenEndOfWord(w, [' '] + rest);
    assert s[|w|..] == [' '] + rest;
    assert s[..|w|] == w;
    TrimLeftOfSpace(rest);
  }

  lemma JoinCons(parts: seq<string>, sep: string)
    requires |parts| > 1
    ensures Join(parts, sep) == parts[0] + (sep + Join(parts[1..], sep))
  {
    assert parts[0] + sep + Join(parts[1..], sep) == parts[0] + (sep + Join(parts[1..], sep));
  }

  /** Splitting a space-joined list of words gives the words back: `" ".join(ws).split() == ws`
      when every word is non-empty and has no whitespace in it. */
  lemma {:induction false} WordsOfJoin(ws: seq<string>)
    requires forall i :: 0 <= i < |ws| ==> ws[i] != [] && NoSpace(ws[i])
    ensures Words(Join(ws, " ")) == ws
  {
    if |ws| == 0 {
      assert Join(ws, " ") == "";
      assert TrimLeft("") == "";
    } else if |ws| == 1 {
      WordsOfWord(ws[0]);
    } else if |ws| > 1 {
      var tail := ws[1..];
      assert forall i :: 0 <= i < |tail| ==> tail[i] == ws[i + 1];
      var rest := Join(tail, " ");
      JoinCons(ws, " ");
      WordsOfWordThenSpace(ws[0], rest);
      WordsOfJoin(tail);
      assert ws == [ws[0]] + tail;
      assert " " == [' '];
      assert Join(ws, " ") == ws[0] + ([' '] + rest);
      assert Words(ws[0] + ([' '] + rest)) == [ws[0]] + tail;
    }
  }

  /** Index of the first `c` in `s`, or `|s|` when there is none. */
  function IndexOf(s: string, c: char): (i: nat)
    ensures i <= |s|
    ensures c !in s[..i]
    ensures i < |s| ==> s[i] == c
  {
    if s == [] then 0 else if s[0] == c then 0 else 1 + IndexOf(s[1..], c)
  }

  /** Python's `s.split(sep)` for a one-character separator. */
  function Split(s: string, sep: char): (r: seq<string>)
    ensures |r| >= 1
    decreases |s|
  {
    var i := IndexOf(s, sep);
    if i == |s| then [s] else [s[..i]] + Split(s[i + 1..], sep)
  }

  /** No part of a split contains the separator. */
  lemma {:induction false} SplitPartsFree(s: string, sep: char)
    ensures forall k :: 0 <= k < |Split(s, sep)| ==> sep !in Split(s, sep)[k]
    decreases |s|
  {
    var i := IndexOf(s, sep);
    if i < |s| {
      SplitPartsFree(s[i + 1..], sep);
    }
  }

  /** One step of `Split`: the part before the first separator, then the split of the rest. */
  lemma SplitAt(s: string, sep: char)
    requires IndexOf(s, sep) < |s|
    ensures Split(s, sep) == [s[..IndexOf(s, sep)]] + Split(s[IndexOf(s, sep) + 1..], sep)
  {
  }

  lemma JoinConsOne(a: string, ps: seq<string>, sep: string)
    requires |ps| >= 1
    ensures Join([a] + ps, sep) == a + (sep + Join(ps, sep))
  {
    assert ([a] + ps)[1..] == ps;
    JoinCons([a] + ps, sep);
  }

  lemma CutAt(s: string, i: nat)
    requires i < |s|
    ensures s == s[..i] + ([s[i]] + s[i + 1..])
  {
  }

  /** `sep.join(s.split(sep)) == s`. */
  lemma {:induction false} JoinOfSplit(s: string, sep: char)
    ensures Join(Split(s, sep), [sep]) == s
    decreases |s|
  {
    var i := IndexOf(s, sep);
    if i < |s| {
      var rest := s[i + 1..];
      var ps := Split(rest, sep);
      SplitAt(s, sep);
      JoinOfSplit(rest, sep);
      JoinConsOne(s[..i], ps, [sep]);
      CutAt(s, i);
    }
  }

  /** Python's `sub in s` on strings. */
  predicate Contains(s: string, sub: string) {
    StartsWith(s, sub) || (s != [] && Contains(s[1..], sub))
  }

  predicate StartsWith(s: string, prefix: string) {
    |prefix| <= |s| && s[..|prefix|] == prefix
  }

  /** Python's `str.lower()` on ASCII letters. */
  function LowerChar(c: char): char {
    if 'A' <= c <= 'Z' then (c as int + 32) as char else c
  }

  function Lower(s: string): string {
    seq(|s|, i requires 0 <= i < |s| => LowerChar(s[i]))
  }

  /** A word found in `s` is found, lowered, in `s.lower()`. */
  lemma {:induction false} ContainsLower(s: string, sub: string)
    requires Contains(s, sub)
    ensures Contains(Lower(s), Lower(sub))
  {
    if StartsWith(s, sub) {
      assert Lower(s)[..|sub|] == Lower(sub);
    } else {
      ContainsLower(s[1..], sub);
      assert Lower(s)[1..] == Lower(s[1..]);
    }
  }

  function DigitChar(d: nat): char
    requires d < 10
  {
    "0123456789"[d]
  }

  predicate IsDigit(c: char) {
    '0' <= c <= '9'
  }

  /** Python's `str(n)` for a non-negative integer. */
  function NatToString(n: nat): (r: string)
    ensures |r| >= 1
    ensures forall i :: 0 <= i < |r| ==> IsDigit(r[i])
  {
    if n < 10 then [DigitChar(n)] else NatToString(n / 10) + [DigitChar(n % 10)]
  }

  function DigitValue(c: char): nat
    requires IsDigit(c)
  {
    c as int - '0' as int
  }

  /** The value of a string of decimal digits. */
  function DigitsValue(s: string): nat
    requires forall i :: 0 <= i < |s| ==> IsDigit(s[i])
  {
    if s == [] then 0 else 10 * DigitsValue(s[..|s| - 1]) + DigitValue(s[|s| - 1])
  }

  /** Reading back the decimal rendering gives the number: `int(str(n)) == n`. */
  lemma {:induction false} NatToStringRoundTrip(n: nat)
    ensures DigitsValue(NatToString(n)) == n
  {
    if n >= 10 {
      NatToStringRoundTrip(n / 10);
      var s := NatToString(n);
      assert s[..|s| - 1] == NatToString(n / 10);
    }
  }

  /** Distinct numbers render to distinct strings. */
  lemma NatToStringInjective(m: nat, n: nat)
    requires NatToString(m) == NatToString(n)
    ensures m == n
  {
    NatToStringRoundTrip(m);
    NatToStringRoundTrip(n);
  }

  /** `round(x)` with ties to even, as Python's fixed-point formatting rounds. */
  function RoundHalfEven(x: real): int {
    var f := x.Floor;
    var d := x - f as real;
    if d < 0.5 then f else if d > 0.5 then f + 1 else if f % 2 == 0 then f else f + 1
  }

  /** The rounded value is within one half of `x`. */
  lemma RoundHalfEvenClose(x: real)
    ensures -0.5 <= RoundHalfEven(x) as real - x <= 0.5
    ensures x >= 0.0 ==> RoundHalfEven(x) >= 0
  {
  }

  /** `|x|` in hundredths, rounded as `f"{x:.2f}"` rounds. */
  function Hundredths(x: real): nat {
    var n := RoundHalfEven(if x < 0.0 then -x * 100.0 else x * 100.0);
    if n < 0 then 0 else n
  }

  /** `m` hundredths written with two decimals. */
  function FixedDigits(m: nat): string {
    NatToString(m / 100) + "." + [DigitChar(m % 100 / 10), DigitChar(m % 10)]
  }

  /** `f"{x:.2f}"`: the digits of `x` rounded to hundredths, with a leading `-` for negatives. */
  function Fixed2(x: real): string {
    (if x < 0.0 then "-" else "") + FixedDigits(Hundredths(x))
  }

  lemma DigitsValueSnoc(s: string, c: char)
    requires forall i :: 0 <= i < |s| ==> IsDigit(s[i])
    requires IsDigit(c)
    ensures DigitsValue(s + [c]) == 10 * DigitsValue(s) + DigitValue(c)
  {
    assert (s + [c])[..|s|] == s;
  }

  lemma HundredsTensUnits(m: nat)
    ensures m == 100 * (m / 100) + 10 * (m % 100 / 10) + m % 10
  {
  }

  lemma DigitValueOfChar(d: nat)
    requires d < 10
    ensures IsDigit(DigitChar(d)) && DigitValue(DigitChar(d)) == d
  {
  }

  /** Two digits after a digit string scale it by a hundred. */
  lemma DigitsValueTwoMore(q: string, d1: nat, d2: nat)
    requires forall i :: 0 <= i < |q| ==> IsDigit(q[i])
    requires d1 < 10 && d2 < 10
    ensures DigitsValue(q + [DigitChar(d1), DigitChar(d2)]) == 100 * DigitsValue(q) + 10 * d1 + d2
  {
    DigitValueOfChar(d1);
    DigitValueOfChar(d2);
    assert q + [DigitChar(d1), DigitChar(d2)] == (q + [DigitChar(d1)]) + [DigitChar(d2)];
    DigitsValueSnoc(q, DigitChar(d1));
    DigitsValueSnoc(q + [DigitChar(d1)], DigitChar(d2));
  }

  /** `FixedDigits(m)` is digits, a point and two digits, and its digits read back as `m`. */
  lemma FixedDigitsReadBack(m: nat)
    ensures var s := FixedDigits(m); var k := |s| - 3;
      && k >= 1 && s[k] == '.'
      && (forall i :: 0 <= i < |s| && i != k ==> IsDigit(s[i]))
      && DigitsValue(s[..k] + s[k + 1..]) == m
  {
    var q := NatToString(m / 100);
    var a, b := m % 100 / 10, m % 10;
    DigitValueOfChar(a);
    DigitValueOfChar(b);
    var s := FixedDigits(m);
    assert s == q + ['.', DigitChar(a), DigitChar(b)];
    var k := |s| - 3;
    assert k == |q|;
    assert s[..k] + s[k + 1..] == q + [DigitChar(a), DigitChar(b)];
    NatToStringRoundTrip(m / 100);
    DigitsValueTwoMore(q, a, b);
    HundredsTensUnits(m);
  }

  /** For `x >= 0`, `Fixed2(x)` is digits, a point and two digits, and reading the digits back
      (without the point) gives `100 * x` to within one half: the text is `x` to within 0.005. */
  lemma Fixed2ReadsBack(x: real)
    requires x >= 0.0
    ensures var s := Fixed2(x); var k := |s| - 3;
      && k >= 1 && s[k] == '.'
      && (forall i :: 0 <= i < |s| && i != k ==> IsDigit(s[i]))
      && -0.5 <= DigitsValue(s[..k] + s[k + 1..]) as real - 100.0 * x <= 0.5
  {
    var m := Hundredths(x);
    HundredthsClose(x);
    assert Fixed2(x) == FixedDigits(m);
    FixedDigitsReadBack(m);
  }

  lemma HundredthsClose(x: real)
    requires x >= 0.0
    ensures -0.5 <= Hundredths(x) as real - 100.0 * x <= 0.5
  {
    RoundHalfEvenClose(x * 100.0);
  }

  /** The length of the head `os.path.split` keeps: up to and including the last `/`. */
  function HeadLength(p: string): (n: nat)
    ensures n <= |p|
  {
    if p == [] then 0 else if p[|p| - 1] == '/' then |p| else HeadLength(p[..|p| - 1])
  }

  function StripTrailingSlashes(s: string): string {
    if s != [] && s[|s| - 1] == '/' then StripTrailingSlashes(s[..|s| - 1]) else s
  }

  /** `os.path.dirname(p)` on POSIX: everything before the last `/`, without its trailing
      slashes unless it consists of slashes only. */
  function Dirname(p: string): string {
    var head := p[..HeadLength(p)];
    if StripTrailingSlashes(head) != [] then StripTrailingSlashes(head) else head
  }

  lemma {:induction false} HeadLengthOfLeaf(dir: string, leaf: string)
    requires '/' !in leaf
    ensures HeadLength(dir + "/" + leaf) == |dir| + 1
    decreases |leaf|
  {
    var p := dir + "/" + leaf;
    if leaf == [] {
      assert p[|p| - 1] == '/';
    } else {
      assert p[|p| - 1] == leaf[|leaf| - 1];
      assert p[..|p| - 1] == dir + "/" + leaf[..|leaf| - 1];
      HeadLengthOfLeaf(dir, leaf[..|leaf| - 1]);
    }
  }

  /** The directory of `dir/leaf` is `dir`, for a leaf without `/` and a directory that does not
      end in `/`. */
  lemma DirnameOfChild(dir: string, leaf: string)
    requires '/' !in leaf
    requires dir != [] && dir[|dir| - 1] != '/'
    ensures Dirname(dir + "/" + leaf) == dir
  {
    var p := dir + "/" + leaf;
    HeadLengthOfLeaf(dir, leaf);
    assert p[..|dir| + 1] == dir + "/";
    assert (dir + "/")[..|dir|] == dir;
    assert StripTrailingSlashes(dir) == dir;
    assert StripTrailingSlashes(dir + "/") == StripTrailingSlashes(dir);
  }
}
