/** String and sequence primitives shared by every component: the few
    Python `str`/`bytes` operations the programs rely on (`in`, `find`,
    `split`, `strip`, `lower`, `startswith`, f-string integers) and the
    append-then-`pop(0)` bounded list. */
module Text {

  datatype Option<T> = None | Some(value: T)

  newtype byte = x: int | 0 <= x < 256

  /** `s.startswith(p)` */
  predicate StartsWith(s: string, p: string) {
    |p| <= |s| && s[..|p|] == p
  }

  /** `t` occurs in `s` at index `i`. */
  predicate OccursAt(s: string, t: string, i: int) {
    0 <= i && i + |t| <= |s| && s[i..i + |t|] == t
  }

  lemma OccursAtTail(s: string, t: string, j: int)
    requires 1 <= j && |s| > 0
    ensures OccursAt(s, t, j) <==> OccursAt(s[1..], t, j - 1)
  {
    if j + |t| <= |s| {
      assert s[1..][j - 1..j - 1 + |t|] == s[j..j + |t|];
    }
  }

  /** `s.find(t)`: the first index where `t` occurs, or -1. */
  function Find(s: string, t: string): (r: int)
    ensures -1 <= r <= |s|
    ensures r >= 0 ==> OccursAt(s, t, r)
    ensures forall j :: 0 <= j && (r < 0 || j < r) ==> !OccursAt(s, t, j)
    decreases |s|
  {
    if StartsWith(s, t) then 0
    else if s == [] then -1
    else
      var k := Find(s[1..], t);
      assert forall j :: 1 <= j ==> (OccursAt(s, t, j) <==> OccursAt(s[1..], t, j - 1)) by {
        forall j | 1 <= j ensures OccursAt(s, t, j) <==> OccursAt(s[1..], t, j - 1) {
          OccursAtTail(s, t, j);
        }
      }
      if k < 0 then -1 else k + 1
  }

  /** `t in s` */
  predicate Contains(s: string, t: string) {
    exists i | 0 <= i <= |s| :: OccursAt(s, t, i)
  }

  /** `s.find(t)` finds something exactly when `t in s`. */
  lemma FindContains(s: string, t: string)
    ensures Contains(s, t) <==> Find(s, t) >= 0
  {
  }

  lemma ContainsAt(s: string, t: string, i: int)
    requires OccursAt(s, t, i)
    ensures Contains(s, t)
  {
  }

  /** An occurrence inside a part of a concatenation is an occurrence in the whole. */
  lemma ContainsConcat(a: string, b: string, t: string)
    ensures Contains(a, t) ==> Contains(a + b, t)
    ensures Contains(b, t) ==> Contains(a + b, t)
  {
    if Contains(a, t) {
      ContainsLeft(a, b, t);
    }
    if Contains(b, t) {
      ContainsRight(a, b, t);
    }
  }

  lemma ContainsLeft(a: string, b: string, t: string)
    requires Contains(a, t)
    ensures Contains(a + b, t)
  {
    var i := Find(a, t);
    assert (a + b)[i..i + |t|] == a[i..i + |t|];
    ContainsAt(a + b, t, i);
  }

  lemma ContainsRight(a: string, b: string, t: string)
    requires Contains(b, t)
    ensures Contains(a + b, t)
  {
    var i := Find(b, t);
    assert (a + b)[|a| + i..|a| + i + |t|] == b[i..i + |t|];
    ContainsAt(a + b, t, |a| + i);
  }

  /** `t` cannot occur in `s` when its character `t[m]` is absent from
      `s[..k]` and the text after `k` is too short to hold `t[m..]`. */
  lemma NoOccurrenceBefore(s: string, t: string, k: int, m: int)
    requires 0 <= m < |t| && 0 <= k <= |s| && |s| - k < |t| - m
    requires forall i :: 0 <= i < k ==> s[i] != t[m]
    ensures forall j :: 0 <= j ==> !OccursAt(s, t, j)
  {
    forall j | 0 <= j ensures !OccursAt(s, t, j) {
      if j + |t| <= |s| {
        assert s[j..j + |t|][m] == s[j + m] != t[m];
      }
    }
  }

  /** A string that starts with a token shares its occurrences: where `t`
      occurs, so does its prefix `u`. */
  lemma ContainsStart(s: string, t: string, u: string)
    requires StartsWith(t, u) && Contains(s, t)
    ensures Contains(s, u)
  {
    var i :| 0 <= i <= |s| && OccursAt(s, t, i);
    assert s[i..i + |u|] == s[i..i + |t|][..|u|];
    assert OccursAt(s, u, i);
  }

  /** Where `t` occurs, so does every piece of it. */
  lemma ContainsInner(s: string, t: string, u: string, k: int)
    requires OccursAt(t, u, k) && Contains(s, t)
    ensures Contains(s, u)
  {
    var i :| 0 <= i <= |s| && OccursAt(s, t, i);
    assert s[i..i + |t|] == t;
    forall j | 0 <= j < |u|
      ensures s[i + k + j] == u[j]
    {
      assert t[k + j] == u[j];
      assert s[i..i + |t|][k + j] == s[i + k + j];
    }
    assert s[i + k..i + k + |u|] == u;
    assert OccursAt(s, u, i + k);
  }

  /** `s.split(sep)[0]`: the text before the first `sep`. */
  function Before(s: string, sep: string): (r: string)
    ensures StartsWith(s, r)
    ensures sep != [] ==> !Contains(r, sep)
    ensures !Contains(s, sep) ==> r == s
  {
    var i := Find(s, sep);
    if i < 0 then s
    else
      assert sep != [] ==> !Contains(s[..i], sep) by {
        var k := Find(s[..i], sep);
        if sep != [] && k >= 0 {
          OccursInPrefix(s, sep, i, k);
        }
      }
      s[..i]
  }

  /** `split(sep)[0]` stops at the first occurrence of `sep`: it is followed
      by `sep`, and is the whole text exactly when `sep` is absent. */
  lemma BeforeFirst(s: string, sep: string)
    requires sep != []
    ensures Contains(s, sep) ==> StartsWith(s[|Before(s, sep)|..], sep)
    ensures Before(s, sep) == s <==> !Contains(s, sep)
  {
    var i := Find(s, sep);
    if i >= 0 {
      assert s[i..][..|sep|] == s[i..i + |sep|];
    }
  }

  /** An occurrence in a prefix is an occurrence in the whole, ending inside
      the prefix. */
  lemma OccursInPrefix(s: string, t: string, i: int, j: int)
    requires 0 <= i <= |s| && OccursAt(s[..i], t, j)
    ensures OccursAt(s, t, j) && j + |t| <= i
  {
    assert s[..i][j..j + |t|] == s[j..j + |t|];
  }

  /** The text after the first `sep` (for an `s` that contains `sep`). */
  function After(s: string, sep: string): (r: string)
    requires Contains(s, sep)
    ensures |r| <= |s| - |sep|
  {
    s[Find(s, sep) + |sep|..]
  }

  /** An occurrence inside a prefix is an occurrence in the whole. */
  lemma PrefixOccurrence(s: string, p: string, t: string, j: int)
    requires StartsWith(s, p) && OccursAt(p, t, j)
    ensures OccursAt(s, t, j) && Contains(s, t)
  {
    assert forall k :: j <= k < j + |t| ==> s[k] == p[k] by {
      forall k | j <= k < j + |t| ensures s[k] == p[k] {
        assert s[..|p|][k] == p[k];
      }
    }
    assert s[j..j + |t|] == p[j..j + |t|];
    ContainsAt(s, t, j);
  }

  /** `s.split(open)[1].split(close)[0]`, the idiom every component uses to read
      the argument of a control token. The second piece of a Python split ends at
      the next `open`, hence the inner `Before`. */
  function Field(s: string, open: string, close: string): (r: string)
    requires Contains(s, open) && open != []
    ensures close != [] ==> !Contains(r, close)
    ensures !Contains(r, open)
  {
    var rest := Before(After(s, open), open);
    var r := Before(rest, close);
    assert !Contains(r, open) by {
      if Contains(r, open) {
        var j := Find(r, open);
        PrefixOccurrence(rest, r, open, j);
      }
    }
    r
  }

  /** A field written between its markers is read back, when it holds
      neither marker's first character and what follows is too short to
      hold another opening marker. */
  lemma FieldRoundTrip(open: string, v: string, close: string, tail: string)
    requires open != [] && close != [] && |close + tail| < |open|
    requires forall i :: 0 <= i < |v| ==> v[i] != open[0] && v[i] != close[0]
    ensures Contains(open + (v + (close + tail)), open)
    ensures Field(open + (v + (close + tail)), open, close) == v
  {
    var rest := v + (close + tail);
    AfterPrefix(open, rest);
    assert Before(rest, open) == rest by {
      NoOccurrenceBefore(rest, open, |v|, 0);
    }
    assert Before(rest, close) == v by {
      assert OccursAt(rest, close, |v|) by {
        assert rest[|v|..|v| + |close|] == close;
      }
      FirstOccurrence(rest, close, |v|);
      assert rest[..|v|] == v;
    }
  }

  lemma AfterPrefix(open: string, rest: string)
    requires open != []
    ensures Contains(open + rest, open) && After(open + rest, open) == rest
  {
    assert OccursAt(open + rest, open, 0);
    assert (open + rest)[|open|..] == rest;
  }

  /** `sep` at `k`, whose first character is absent before `k`: the text
      before the first `sep` ends at `k`. */
  lemma FirstOccurrence(s: string, sep: string, k: int)
    requires sep != [] && OccursAt(s, sep, k)
    requires forall i :: 0 <= i < k ==> s[i] != sep[0]
    ensures Before(s, sep) == s[..k]
  {
    forall j | 0 <= j < k ensures !OccursAt(s, sep, j) {
      if j + |sep| <= |s| {
        assert s[j..j + |sep|][0] == s[j];
      }
    }
    assert Find(s, sep) == k;
  }

  /** `s.split(sep)` with a non-empty separator. */
  function Split(s: string, sep: string): (parts: seq<string>)
    requires sep != []
    ensures |parts| >= 1
    ensures forall k :: 0 <= k < |parts| ==> !Contains(parts[k], sep)
    decreases |s|
  {
    var i := Find(s, sep);
    if i < 0 then [s] else [Before(s, sep)] + Split(s[i + |sep|..], sep)
  }

  /** `sep.join(xs)`. */
  function Join(xs: seq<string>, sep: string): (r: string)
    ensures |xs| == 1 ==> r == xs[0]
  {
    if xs == [] then [] else if |xs| == 1 then xs[0] else xs[0] + sep + Join(xs[1..], sep)
  }

  /** `sep.join(s.split(sep)) == s`: the pieces and the separators between
      them make up the whole text, so no character is lost or added. */
  lemma {:induction false} SplitJoin(s: string, sep: string)
    requires sep != []
    ensures Join(Split(s, sep), sep) == s
    decreases |s|
  {
    var i := Find(s, sep);
    if i >= 0 {
      var rest := s[i + |sep|..];
      var tail := Split(rest, sep);
      SplitJoin(rest, sep);
      var xs := [s[..i]] + tail;
      SplitStep(s, sep);
      assert |xs| >= 2 && xs[0] == s[..i] && xs[1..] == tail;
      assert Join(xs, sep) == s[..i] + sep + Join(tail, sep);
      ThreeParts(s, i, i + |sep|);
    }
  }

  /** Python's `str.isspace()` for one character. */
  predicate IsSpace(c: char) {
    c == ' ' || ('\t' <= c <= '\r') || ('\U{1c}' <= c <= '\U{1f}') || c == '\U{85}' || c == '\U{a0}'
    || c == '\U{1680}' || ('\U{2000}' <= c <= '\U{200a}') || c == '\U{2028}' || c == '\U{2029}'
    || c == '\U{202f}' || c == '\U{205f}' || c == '\U{3000}'
  }

  /** The first index at or after `i` whose character is not whitespace. */
  function SpaceEnd(s: string, i: nat): (j: nat)
    requires i <= |s|
    ensures i <= j <= |s|
    ensures forall k :: i <= k < j ==> IsSpace(s[k])
    ensures j == |s| || !IsSpace(s[j])
    decreases |s| - i
  {
    if i < |s| && IsSpace(s[i]) then SpaceEnd(s, i + 1) else i
  }

  /** The index just after the last character before `i` that is not
      whitespace. */
  function SpaceStart(s: string, i: nat): (j: nat)
    requires i <= |s|
    ensures j <= i
    ensures forall k :: j <= k < i ==> IsSpace(s[k])
    ensures j == 0 || !IsSpace(s[j - 1])
  {
    if i > 0 && IsSpace(s[i - 1]) then SpaceStart(s, i - 1) else i
  }

  /** `s.lstrip()` */
  function LStrip(s: string): (r: string)
    ensures r == [] || !IsSpace(r[0])
    ensures |r| <= |s| && r == s[|s| - |r|..]
    ensures forall i :: 0 <= i < |s| - |r| ==> IsSpace(s[i])
  {
    s[SpaceEnd(s, 0)..]
  }

  /** `s.rstrip()` */
  function RStrip(s: string): (r: string)
    ensures r == [] || !IsSpace(r[|r| - 1])
    ensures |r| <= |s| && r == s[..|r|]
    ensures forall i :: |r| <= i < |s| ==> IsSpace(s[i])
  {
    s[..SpaceStart(s, |s|)]
  }

  /** `s.strip()` */
  function Strip(s: string): string {
    RStrip(LStrip(s))
  }

  /** `Strip` removes exactly the surrounding whitespace: the result is the
      slice of the input starting at `a`, and everything cut away on either
      side is whitespace. */
  lemma StripSpec(s: string) returns (a: nat)
    ensures a + |Strip(s)| <= |s|
    ensures forall k :: 0 <= k < |Strip(s)| ==> Strip(s)[k] == s[a + k]
    ensures forall i :: 0 <= i < a ==> IsSpace(s[i])
    ensures forall i :: a + |Strip(s)| <= i < |s| ==> IsSpace(s[i])
  {
    var l := LStrip(s);
    a := |s| - |l|;
    StripParts(s, l, RStrip(l), a);
  }

  lemma StripParts(s: string, l: string, r: string, a: int)
    requires 0 <= a <= |s| && l == s[a..] && |r| <= |l| && r == l[..|r|]
    requires forall i :: |r| <= i < |l| ==> IsSpace(l[i])
    ensures a + |r| <= |s|
    ensures forall k :: 0 <= k < |r| ==> r[k] == s[a + k]
    ensures forall i :: a + |r| <= i < |s| ==> IsSpace(s[i])
  {
    forall i | a + |r| <= i < |s|
      ensures IsSpace(s[i])
    {
      assert s[i] == l[i - a];
    }
  }

  /** ... and all of it: the result neither starts nor ends with whitespace. */
  lemma StripEnds(s: string)
    ensures Strip(s) == [] || (!IsSpace(Strip(s)[0]) && !IsSpace(Strip(s)[|Strip(s)| - 1]))
  {
    var l := LStrip(s);
    var r := RStrip(l);
    if r != [] {
      assert r[0] == l[0];
    }
  }

  /** Text that neither starts nor ends with whitespace is its own strip. */
  lemma PlainStrip(s: string)
    requires s == [] || (!IsSpace(s[0]) && !IsSpace(s[|s| - 1]))
    ensures Strip(s) == s
  {
  }

  /** `s.strip() == ""` exactly when every character is whitespace. */
  lemma StripEmptyIff(s: string)
    ensures Strip(s) == [] <==> forall i :: 0 <= i < |s| ==> IsSpace(s[i])
  {
    var l := LStrip(s);
    if Strip(s) != [] {
      var r := Strip(s);
      assert r[0] == l[0];
      assert l[0] == s[|s| - |l|];
    }
  }

  /** ASCII `str.lower()` for one character. */
  function LowerChar(c: char): char {
    if 'A' <= c <= 'Z' then (c as int + 32) as char else c
  }

  /** ASCII `str.upper()` for one character. */
  function UpperChar(c: char): char {
    if 'a' <= c <= 'z' then (c as int - 32) as char else c
  }

  /** ASCII `str.lower()` */
  function Lower(s: string): (r: string)
    ensures |r| == |s|
    ensures forall i :: 0 <= i < |s| ==> r[i] == LowerChar(s[i])
  {
    if s == [] then [] else [LowerChar(s[0])] + Lower(s[1..])
  }

  predicate IsDigit(c: char) {
    '0' <= c <= '9'
  }

  /** ASCII `str.isdigit()`: non-empty and all digits. */
  predicate AllDigits(s: string) {
    s != [] && forall i :: 0 <= i < |s| ==> IsDigit(s[i])
  }

  /** ASCII `str.isalnum()` for one character. */
  predicate IsAlnum(c: char) {
    IsDigit(c) || ('a' <= c <= 'z') || ('A' <= c <= 'Z')
  }

  function DigitChar(d: nat): char
    requires d < 10
  {
    ('0' as int + d) as char
  }

  function DigitValue(c: char): nat
    requires IsDigit(c)
  {
    c as int - '0' as int
  }

  /** `f"{n}"` for a natural number. */
  function NatToDec(n: nat): (r: string)
    ensures AllDigits(r)
    ensures r[0] == '0' ==> n == 0
    decreases n
  {
    if n < 10 then [DigitChar(n)] else NatToDec(n / 10) + [DigitChar(n % 10)]
  }

  /** The value of a string of decimal digits (`int(s)` for `s.isdigit()`). */
  function DecValue(s: string): nat
    requires forall i :: 0 <= i < |s| ==> IsDigit(s[i])
  {
    if s == [] then 0 else 10 * DecValue(s[..|s| - 1]) + DigitValue(s[|s| - 1])
  }

  /** Reading back a number written by `NatToDec` gives the number. */
  lemma {:induction false} NatToDecRoundTrip(n: nat)
    ensures DecValue(NatToDec(n)) == n
    decreases n
  {
    if n >= 10 {
      NatToDecRoundTrip(n / 10);
      var s := NatToDec(n);
      assert s[..|s| - 1] == NatToDec(n / 10);
    }
  }

  /** `f"{i}"` for any integer. */
  function IntToDec(i: int): string {
    if i < 0 then "-" + NatToDec(-i) else NatToDec(i)
  }

  /** The list operation the programs use for every bounded history or
      scroll-back: `buf.append(x); if len(buf) > cap: buf.pop(0)`. The new
      element is the newest; only the oldest element is ever dropped, and
      only when the buffer would exceed its limit. */
  function PushBounded<T>(buf: seq<T>, x: T, cap: int): (r: seq<T>)
    ensures |r| == if |buf| + 1 > cap then |buf| else |buf| + 1
    ensures r != [] ==> r[|r| - 1] == x
    ensures |buf| + 1 <= cap ==> r == buf + [x]
    ensures |buf| + 1 > cap && buf != [] ==> r == buf[1..] + [x]
  {
    var b := buf + [x];
    if |b| > cap then
      assert buf != [] ==> b[1..] == buf[1..] + [x];
      b[1..]
    else b
  }

  /** The number of bytes in a list of messages. */
  function TotalLen(ms: seq<string>): (n: nat)
    ensures ms == [] ==> n == 0
    decreases |ms|
  {
    if ms == [] then 0 else TotalLen(ms[..|ms| - 1]) + |ms[|ms| - 1]|
  }

  lemma AppendTwo<T>(x: seq<T>, a: seq<T>, b: seq<T>)
    ensures x + a + b == x + (a + b)
  {
  }

  lemma AppendThree<T>(x: seq<T>, a: seq<T>, b: seq<T>, c: seq<T>)
    ensures x + a + b + c == x + (a + b + c)
  {
  }

  /** One step of `split`: the text before the first separator, then the
      pieces of what follows it. */
  lemma SplitStep(s: string, sep: string)
    requires sep != [] && Find(s, sep) >= 0
    ensures Split(s, sep) == [s[..Find(s, sep)]] + Split(s[Find(s, sep) + |sep|..], sep)
  {
    var i := Find(s, sep);
    var p := Split(s[i + |sep|..], sep);
    assert Split(s, sep) == [Before(s, sep)] + p;
    BeforeAt(s, sep);
  }

  lemma BeforeAt(s: string, sep: string)
    requires Find(s, sep) >= 0
    ensures Before(s, sep) == s[..Find(s, sep)]
  {
  }

  lemma ThreeParts<T>(s: seq<T>, i: int, j: int)
    requires 0 <= i <= j <= |s|
    ensures s[..i] + s[i..j] + s[j..] == s
  {
  }

  lemma DropFront<T>(x: seq<T>, a: seq<T>)
    ensures (x + a)[|x|..] == a
  {
  }

  lemma TotalLenSnoc(ms: seq<string>, m: string)
    ensures TotalLen(ms + [m]) == TotalLen(ms) + |m|
  {
    assert (ms + [m])[..|ms|] == ms;
  }
}
