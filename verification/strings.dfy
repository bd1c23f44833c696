/**
 * The Python string and sequence operations the converters rely on, each
 * defined once: slices with clamped bounds, `str.replace` and
 * `bytearray.replace`, substring tests, `os.path.splitext` and
 * `os.path.basename` in their Windows flavour (the plugin runs inside a
 * Windows screen reader), ASCII case mapping, `"\n".join` and `str(int)`.
 */
module Strings {

  datatype Option<T> = None | Some(value: T)

  function Min(a: int, b: int): int { if a <= b then a else b }

  function Max(a: int, b: int): int { if a <= b then b else a }

  /** `s[i:j]` for non-negative bounds: bounds past the end are clamped. */
  function Slice<T>(s: seq<T>, i: nat, j: nat): (r: seq<T>)
    ensures |r| == if j <= i || i >= |s| then 0 else Min(j, |s|) - i
    ensures forall k :: 0 <= k < |r| ==> r[k] == s[i + k]
  {
    if j <= i || i >= |s| then [] else s[i..Min(j, |s|)]
  }

  /** A one-element slice is never equal to a two-element literal. */
  lemma OneCellSliceIsNotTwoCells<T>(s: seq<T>, i: nat, lit: seq<T>)
    requires |lit| == 2
    ensures Slice(s, i, i + 1) != lit
  {
  }

  /** Python's `pat in s`. */
  predicate Occurs<T(==)>(s: seq<T>, pat: seq<T>)
  {
    exists i | 0 <= i <= |s| :: OccursAt(s, pat, i)
  }

  /** `pat` occurs in `s` starting at index `i`. */
  predicate OccursAt<T(==)>(s: seq<T>, pat: seq<T>, i: int)
  {
    0 <= i && i + |pat| <= |s| && s[i..i + |pat|] == pat
  }

  predicate StartsWith<T(==)>(s: seq<T>, prefix: seq<T>)
  {
    |prefix| <= |s| && s[..|prefix|] == prefix
  }

  predicate EndsWith<T(==)>(s: seq<T>, suffix: seq<T>)
  {
    |suffix| <= |s| && s[|s| - |suffix|..] == suffix
  }

  lemma EndsWithAppend<T>(a: seq<T>, s: seq<T>)
    ensures EndsWith(a + s, s)
  {
    assert (a + s)[|a|..] == s;
  }

  /** Number of elements of `s` equal to `x`. */
  function Count<T(==)>(s: seq<T>, x: T): nat
  {
    if s == [] then 0 else (if s[0] == x then 1 else 0) + Count(s[1..], x)
  }

  lemma {:induction false} CountConcat<T>(a: seq<T>, b: seq<T>, x: T)
    ensures Count(a + b, x) == Count(a, x) + Count(b, x)
  {
    if a == [] {
      assert a + b == b;
    } else {
      assert (a + b)[1..] == a[1..] + b;
      CountConcat(a[1..], b, x);
    }
  }

  /** `x` is absent exactly when it is counted zero times. */
  lemma {:induction false} CountZeroIffAbsent<T>(s: seq<T>, x: T)
    ensures Count(s, x) == 0 <==> x !in s
  {
    if s != [] {
      CountZeroIffAbsent(s[1..], x);
      assert s == [s[0]] + s[1..];
    }
  }

  lemma AppendAssoc<T>(x: seq<T>, y: seq<T>, z: seq<T>)
    ensures (x + y) + z == x + (y + z)
  {
  }

  /** Taking the last element off `a + b`, for a non-empty `b`, takes it off `b`. */
  lemma SnocSplit<T>(a: seq<T>, b: seq<T>)
    requires b != []
    ensures (a + b)[..|a + b| - 1] == a + b[..|b| - 1]
    ensures (a + b)[|a + b| - 1] == b[|b| - 1]
  {
    assert (a + b)[..|a + b| - 1] == a + b[..|b| - 1];
  }

  /** Counting over a sequence that grows at the end. */
  lemma CountSnoc<T>(s: seq<T>, x: T)
    requires s != []
    ensures Count(s, x) == Count(s[..|s| - 1], x) + (if s[|s| - 1] == x then 1 else 0)
  {
    assert s == s[..|s| - 1] + [s[|s| - 1]];
    CountConcat(s[..|s| - 1], [s[|s| - 1]], x);
  }

  /**
   * Python's `s.replace(pat, rep)`: the leftmost occurrence is replaced and the
   * scan resumes after it, so occurrences are non-overlapping.
   */
  function ReplaceAll<T(==)>(s: seq<T>, pat: seq<T>, rep: seq<T>): seq<T>
    requires |pat| > 0
    decreases |s|
  {
    if |s| < |pat| then s
    else if s[..|pat|] == pat then rep + ReplaceAll(s[|pat|..], pat, rep)
    else [s[0]] + ReplaceAll(s[1..], pat, rep)
  }

  /** The number of replacements `ReplaceAll(s, pat, _)` makes. */
  function Matches<T(==)>(s: seq<T>, pat: seq<T>): nat
    requires |pat| > 0
    decreases |s|
  {
    if |s| < |pat| then 0
    else if s[..|pat|] == pat then 1 + Matches(s[|pat|..], pat)
    else Matches(s[1..], pat)
  }

  lemma MulSucc(m: int, d: int)
    ensures (m + 1) * d == m * d + d
  {
  }

  /** A sequence is its first `n` elements followed by the rest. */
  lemma SplitAt<T>(s: seq<T>, n: nat)
    requires n <= |s|
    ensures s == s[..n] + s[n..]
  {
  }

  /** Every replacement changes the length by `|rep| - |pat|`. */
  lemma {:induction false} ReplaceAllLength<T>(s: seq<T>, pat: seq<T>, rep: seq<T>)
    requires |pat| > 0
    ensures |ReplaceAll(s, pat, rep)| == |s| + Matches(s, pat) * (|rep| - |pat|)
    decreases |s|
  {
    if |s| < |pat| {
    } else if s[..|pat|] == pat {
      ReplaceAllLength(s[|pat|..], pat, rep);
      MulSucc(Matches(s[|pat|..], pat), |rep| - |pat|);
    } else {
      ReplaceAllLength(s[1..], pat, rep);
    }
  }

  /** Every replacement changes the number of `x` by `Count(rep, x) - Count(pat, x)`. */
  lemma {:induction false} ReplaceAllCount<T>(s: seq<T>, pat: seq<T>, rep: seq<T>, x: T)
    requires |pat| > 0
    ensures Count(ReplaceAll(s, pat, rep), x)
         == Count(s, x) + Matches(s, pat) * (Count(rep, x) - Count(pat, x))
    decreases |s|
  {
    if |s| < |pat| {
    } else if s[..|pat|] == pat {
      var rest := s[|pat|..];
      ReplaceAllCount(rest, pat, rep, x);
      CountConcat(rep, ReplaceAll(rest, pat, rep), x);
      SplitAt(s, |pat|);
      CountConcat(pat, rest, x);
      MulSucc(Matches(rest, pat), Count(rep, x) - Count(pat, x));
    } else {
      ReplaceAllCount(s[1..], pat, rep, x);
      CountConcat([s[0]], ReplaceAll(s[1..], pat, rep), x);
      SplitAt(s, 1);
      assert s[..1] == [s[0]];
      CountConcat([s[0]], s[1..], x);
    }
  }

  /** ReplaceAll makes a replacement exactly when the pattern occurs. */
  lemma {:induction false} MatchesIffOccurs<T>(s: seq<T>, pat: seq<T>)
    requires |pat| > 0
    ensures Matches(s, pat) > 0 <==> Occurs(s, pat)
    decreases |s|
  {
    if |s| < |pat| {
    } else if s[..|pat|] == pat {
      assert OccursAt(s, pat, 0);
    } else {
      MatchesIffOccurs(s[1..], pat);
      if Occurs(s, pat) {
        var i :| 0 <= i <= |s| && OccursAt(s, pat, i);
        assert i != 0;
        assert s[1..][i - 1..i - 1 + |pat|] == s[i..i + |pat|];
        assert OccursAt(s[1..], pat, i - 1);
      }
      if Occurs(s[1..], pat) {
        var i :| 0 <= i <= |s[1..]| && OccursAt(s[1..], pat, i);
        assert s[i + 1..i + 1 + |pat|] == s[1..][i..i + |pat|];
        assert OccursAt(s, pat, i + 1);
      }
    }
  }

  /** Without a match, ReplaceAll returns its input unchanged. */
  lemma {:induction false} ReplaceAllNoMatch<T>(s: seq<T>, pat: seq<T>, rep: seq<T>)
    requires |pat| > 0
    requires Matches(s, pat) == 0
    ensures ReplaceAll(s, pat, rep) == s
    decreases |s|
  {
    if |s| >= |pat| {
      ReplaceAllNoMatch(s[1..], pat, rep);
    }
  }

  /** No element `a` is directly followed by an element `b`. */
  predicate NoPair<T(==)>(s: seq<T>, a: T, b: T)
  {
    forall i :: 0 <= i < |s| - 1 ==> !(s[i] == a && s[i + 1] == b)
  }

  /** NoPair is the absence of the two-element pattern. */
  lemma NoPairIffNotOccurs<T>(s: seq<T>, a: T, b: T)
    ensures NoPair(s, a, b) <==> !Occurs(s, [a, b])
  {
    if !NoPair(s, a, b) {
      var i :| 0 <= i < |s| - 1 && s[i] == a && s[i + 1] == b;
      assert s[i..i + 2] == [a, b];
      assert OccursAt(s, [a, b], i);
    }
    if Occurs(s, [a, b]) {
      var i :| 0 <= i <= |s| && OccursAt(s, [a, b], i);
      assert s[i] == s[i..i + 2][0] && s[i + 1] == s[i..i + 2][1];
    }
  }

  /** The first element of a replaced sequence. */
  lemma ReplaceAllHead<T>(s: seq<T>, pat: seq<T>, rep: seq<T>)
    requires |pat| > 0 && |rep| > 0 && |s| > 0
    ensures |ReplaceAll(s, pat, rep)| > 0
    ensures ReplaceAll(s, pat, rep)[0]
         == if |s| >= |pat| && s[..|pat|] == pat then rep[0] else s[0]
  {
  }

  /**
   * Replacing the pair `a b` by `c d` leaves no `a b` behind when the
   * replacement cannot form one with its neighbours or by itself.
   */
  lemma {:induction false} ReplacePairClears<T>(s: seq<T>, a: T, b: T, c: T, d: T)
    requires c != b && d != a && (c != a || d != b)
    ensures NoPair(ReplaceAll(s, [a, b], [c, d]), a, b)
    decreases |s|
  {
    var r := ReplaceAll(s, [a, b], [c, d]);
    if |s| < 2 {
    } else if s[..2] == [a, b] {
      var rest := ReplaceAll(s[2..], [a, b], [c, d]);
      ReplacePairClears(s[2..], a, b, c, d);
      assert r == [c, d] + rest;
      forall i | 0 <= i < |r| - 1 ensures !(r[i] == a && r[i + 1] == b) {
        if i >= 2 {
          assert r[i] == rest[i - 2] && r[i + 1] == rest[i - 1];
        }
      }
    } else {
      var rest := ReplaceAll(s[1..], [a, b], [c, d]);
      ReplacePairClears(s[1..], a, b, c, d);
      assert r == [s[0]] + rest;
      forall i | 0 <= i < |r| - 1 ensures !(r[i] == a && r[i + 1] == b) {
        if i >= 1 {
          assert r[i] == rest[i - 1] && r[i + 1] == rest[i];
        } else {
          ReplaceAllHead(s[1..], [a, b], [c, d]);
          assert s[..2] == [s[0], s[1]];
        }
      }
    }
  }

  /** Index of the last `c` in `s`, or -1 (Python's `s.rfind(c)`). */
  function RFind(s: string, c: char): (r: int)
    ensures -1 <= r < |s|
    ensures r >= 0 ==> s[r] == c
    ensures forall k :: r < k < |s| ==> s[k] != c
  {
    if s == [] then -1
    else if s[|s| - 1] == c then |s| - 1
    else RFind(s[..|s| - 1], c)
  }

  /** Index of the last path separator, `/` or `\`, or -1. */
  function LastSeparator(p: string): (r: int)
    ensures -1 <= r < |p|
    ensures r >= 0 ==> p[r] == '/' || p[r] == '\\'
    ensures forall k :: r < k < |p| ==> p[k] != '/' && p[k] != '\\'
  {
    Max(RFind(p, '\\'), RFind(p, '/'))
  }

  /**
   * `os.path.splitext` (Windows flavour): the extension runs from the last
   * dot of the last path component, unless that component has only dots
   * before it.
   */
  function Splitext(p: string): (string, string)
  {
    var sep := LastSeparator(p);
    var dot := RFind(p, '.');
    if dot > sep && exists k :: sep + 1 <= k < dot && p[k] != '.'
    then (p[..dot], p[dot..])
    else (p, "")
  }

  /**
   * Splitext partitions its argument, and the extension is empty or one dot
   * followed by characters that are neither dots nor separators.
   */
  lemma SplitextParts(p: string)
    ensures Splitext(p).0 + Splitext(p).1 == p
    ensures var ext := Splitext(p).1;
      ext == "" || (ext[0] == '.' && forall k :: 1 <= k < |ext| ==> ext[k] !in "./\\")
  {
    var sep := LastSeparator(p);
    var dot := RFind(p, '.');
    if dot > sep && exists k :: sep + 1 <= k < dot && p[k] != '.' {
      var ext := p[dot..];
      forall k | 1 <= k < |ext| ensures ext[k] !in "./\\" {
        assert ext[k] == p[dot + k];
      }
    }
  }

  /** `os.path.basename`: what follows the last separator. */
  function Basename(p: string): (r: string)
    ensures '/' !in r && '\\' !in r
  {
    var sep := LastSeparator(p);
    var r := p[sep + 1..];
    assert forall k :: 0 <= k < |r| ==> r[k] != '/' && r[k] != '\\' by {
      forall k | 0 <= k < |r| ensures r[k] != '/' && r[k] != '\\' {
        assert r[k] == p[sep + 1 + k];
      }
    }
    r
  }

  function UpperChar(c: char): char
  {
    if 'a' <= c <= 'z' then (c as int - 32) as char else c
  }

  function LowerChar(c: char): char
  {
    if 'A' <= c <= 'Z' then (c as int + 32) as char else c
  }

  /** `str.upper()` on ASCII letters. */
  function AsciiUpper(s: string): (r: string)
    ensures |r| == |s| && forall k :: 0 <= k < |s| ==> r[k] == UpperChar(s[k])
  {
    seq(|s|, k requires 0 <= k < |s| => UpperChar(s[k]))
  }

  /** `str.lower()` on ASCII letters. */
  function AsciiLower(s: string): (r: string)
    ensures |r| == |s| && forall k :: 0 <= k < |s| ==> r[k] == LowerChar(s[k])
  {
    seq(|s|, k requires 0 <= k < |s| => LowerChar(s[k]))
  }

  /** `sep.join(parts)`. */
  function Join(parts: seq<string>, sep: string): string
  {
    if parts == [] then ""
    else if |parts| == 1 then parts[0]
    else parts[0] + sep + Join(parts[1..], sep)
  }

  /** `s * n` for a string `s`: empty when `n <= 0`. */
  function Repeat(s: string, n: int): (r: string)
    ensures |r| == if n <= 0 then 0 else n * |s|
    decreases if n <= 0 then 0 else n
  {
    if n <= 0 then "" else s + Repeat(s, n - 1)
  }

  function DigitChar(d: nat): char
    requires d < 10
  {
    ('0' as int + d) as char
  }

  /** `str(n)` for a natural number. */
  function NatToString(n: nat): (r: string)
    ensures |r| > 0 && forall k :: 0 <= k < |r| ==> '0' <= r[k] <= '9'
  {
    if n < 10 then [DigitChar(n)] else NatToString(n / 10) + [DigitChar(n % 10)]
  }

  /** `str(i)` for an integer. */
  function IntToString(i: int): string
  {
    if i < 0 then "-" + NatToString(-i) else NatToString(i)
  }

  /** `int(s)` for a string of decimal digits. */
  function ParseNat(s: string): nat
    requires forall k :: 0 <= k < |s| ==> '0' <= s[k] <= '9'
  {
    if s == [] then 0 else 10 * ParseNat(s[..|s| - 1]) + (s[|s| - 1] as int - '0' as int)
  }

  /** Decimal printing is undone by parsing, so distinct numbers print differently. */
  lemma {:induction false} ParseNatToString(n: nat)
    ensures ParseNat(NatToString(n)) == n
  {
    if n >= 10 {
      var s := NatToString(n);
      assert s[..|s| - 1] == NatToString(n / 10);
      ParseNatToString(n / 10);
    }
  }

  lemma NatToStringInjective(m: nat, n: nat)
    requires NatToString(m) == NatToString(n)
    ensures m == n
  {
    ParseNatToString(m);
    ParseNatToString(n);
  }
}
