/** Generic text helpers shared by the Java and the Python string layers:
    trimming by a padding predicate, erasing a character, counting it,
    and joining on a separator. */
module Text {

  /** The three notions of padding the system trims or skips. */
  datatype Padding =
    | JavaSpace    // java.lang.String.trim: every character at or below U+0020
    | PythonSpace  // Python str.strip(): the characters str.isspace() accepts
    | SpaceChar    // the single character ' '

  /** Python's whitespace set: the characters for which str.isspace() is true. */
  predicate IsPythonSpace(c: char) {
    || '\t' <= c <= '\r'                    // \t \n \x0b \x0c \r
    || '\U{001c}' <= c <= ' '                  // \x1c-\x1f and the space
    || c == '\U{0085}' || c == '\U{00a0}' || c == '\U{1680}'
    || '\U{2000}' <= c <= '\U{200a}'
    || c == '\U{2028}' || c == '\U{2029}' || c == '\U{202f}' || c == '\U{205f}' || c == '\U{3000}'
  }

  predicate IsPad(pad: Padding, c: char) {
    match pad
    case JavaSpace => c <= ' '
    case PythonSpace => IsPythonSpace(c)
    case SpaceChar => c == ' '
  }

  /** Every character of `s` is padding. */
  predicate All(s: string, pad: Padding) {
    forall i :: 0 <= i < |s| ==> IsPad(pad, s[i])
  }

  /** `s` is empty or starts and ends with a non-padding character. */
  predicate Unpadded(s: string, pad: Padding) {
    s == [] || (!IsPad(pad, s[0]) && !IsPad(pad, s[|s| - 1]))
  }

  /** `s` without its leading padding. */
  function DropLeading(s: string, pad: Padding): (r: string)
    ensures |r| <= |s| && r == s[|s| - |r|..]
    ensures All(s[..|s| - |r|], pad)
    ensures r == [] || !IsPad(pad, r[0])
    decreases |s|
  {
    if |s| > 0 && IsPad(pad, s[0]) then
      var r := DropLeading(s[1..], pad);
      assert s[..|s| - |r|] == [s[0]] + s[1..][..|s| - 1 - |r|];
      r
    else s
  }

  /** `s` without its trailing padding. */
  function DropTrailing(s: string, pad: Padding): (r: string)
    ensures |r| <= |s| && r == s[..|r|]
    ensures All(s[|r|..], pad)
    ensures r == [] || !IsPad(pad, r[|r| - 1])
    decreases |s|
  {
    if |s| > 0 && IsPad(pad, s[|s| - 1]) then
      var r := DropTrailing(s[..|s| - 1], pad);
      assert s[|r|..] == s[..|s| - 1][|r|..] + [s[|s| - 1]];
      r
    else s
  }

  /** `s` is `m` with only padding before position `a` and from position
      `b` on. */
  predicate Surrounds(s: string, a: int, b: int, m: string, pad: Padding) {
    0 <= a <= b <= |s| && s[a..b] == m && All(s[..a], pad) && All(s[b..], pad)
  }

  /** `s` without padding at either end: the contiguous middle of `s` that
      starts and ends with non-padding characters. */
  function TrimWhere(s: string, pad: Padding): (r: string)
    ensures Unpadded(r, pad)
    ensures r == [] <==> All(s, pad)
    ensures exists a, b :: Surrounds(s, a, b, r, pad)
  {
    var t := DropLeading(s, pad);
    var r := DropTrailing(t, pad);
    TrimWhereWitness(s, pad, t, r);
    r
  }

  lemma TrimWhereWitness(s: string, pad: Padding, t: string, r: string)
    requires |t| <= |s| && t == s[|s| - |t|..] && All(s[..|s| - |t|], pad)
    requires t == [] || !IsPad(pad, t[0])
    requires |r| <= |t| && r == t[..|r|] && All(t[|r|..], pad)
    requires r == [] || !IsPad(pad, r[|r| - 1])
    ensures Unpadded(r, pad)
    ensures r == [] <==> All(s, pad)
    ensures Surrounds(s, |s| - |t|, |s| - |t| + |r|, r, pad)
  {
    if r != [] {
      assert r[0] == t[0];
    }
    var a := |s| - |t|;
    TrimMiddle(s, pad, t, r);
    if r == [] {
      AllOfHalves(s, a, pad);
    }
  }

  lemma TrimMiddle(s: string, pad: Padding, t: string, r: string)
    requires |t| <= |s| && t == s[|s| - |t|..] && All(s[..|s| - |t|], pad)
    requires |r| <= |t| && r == t[..|r|] && All(t[|r|..], pad)
    ensures r == s[|s| - |t|..|s| - |t| + |r|]
    ensures All(s[..|s| - |t|], pad)
    ensures All(s[|s| - |t| + |r|..], pad)
  {
    assert s[|s| - |t| + |r|..] == t[|r|..];
  }

  lemma AllOfHalves(s: string, a: nat, pad: Padding)
    requires a <= |s| && All(s[..a], pad) && All(s[a..], pad)
    ensures All(s, pad)
  {
    forall i | 0 <= i < |s| ensures IsPad(pad, s[i]) {
      if i < a { assert s[i] == s[..a][i]; } else { assert s[i] == s[a..][i - a]; }
    }
  }

  lemma {:induction false} DropLeadingOfPadded(p: string, m: string, pad: Padding)
    requires All(p, pad)
    requires m == [] || !IsPad(pad, m[0])
    ensures DropLeading(p + m, pad) == m
    decreases |p|
  {
    if p != [] {
      assert (p + m)[1..] == p[1..] + m;
      DropLeadingOfPadded(p[1..], m, pad);
    }
  }

  lemma {:induction false} DropTrailingOfPadded(m: string, q: string, pad: Padding)
    requires All(q, pad)
    requires m == [] || !IsPad(pad, m[|m| - 1])
    ensures DropTrailing(m + q, pad) == m
    decreases |q|
  {
    if q != [] {
      assert (m + q)[..|m + q| - 1] == m + q[..|q| - 1];
      DropTrailingOfPadded(m, q[..|q| - 1], pad);
    }
  }

  /** Trimming recovers the unpadded middle of any padded text: together with
      the contract of TrimWhere this pins the result down uniquely. */
  lemma TrimWhereOfPadded(p: string, m: string, q: string, pad: Padding)
    requires All(p, pad) && All(q, pad) && Unpadded(m, pad)
    ensures TrimWhere(p + m + q, pad) == m
  {
    if m == [] {
      assert All(p + m + q, pad);
    } else {
      assert p + m + q == p + (m + q);
      DropLeadingOfPadded(p, m + q, pad);
      DropTrailingOfPadded(m, q, pad);
    }
  }

  /** Trimming gives `m` exactly when `m` is unpadded and `s` is `m` with
      padding around it. */
  lemma TrimWhereIff(s: string, m: string, pad: Padding)
    ensures TrimWhere(s, pad) == m <==> Unpadded(m, pad) && exists a, b :: Surrounds(s, a, b, m, pad)
  {
    if Unpadded(m, pad) && exists a, b :: Surrounds(s, a, b, m, pad) {
      var a, b :| Surrounds(s, a, b, m, pad);
      TrimWhereOfSurrounded(s, a, b, m, pad);
    }
  }

  lemma TrimWhereOfSurrounded(s: string, a: int, b: int, m: string, pad: Padding)
    requires Surrounds(s, a, b, m, pad) && Unpadded(m, pad)
    ensures TrimWhere(s, pad) == m
  {
    assert s == s[..a] + m + s[b..];
    TrimWhereOfPadded(s[..a], m, s[b..], pad);
  }

  /** Trimming twice is trimming once. */
  lemma TrimWhereIdempotent(s: string, pad: Padding)
    ensures TrimWhere(TrimWhere(s, pad), pad) == TrimWhere(s, pad)
  {
    var m := TrimWhere(s, pad);
    assert [] + m + [] == m;
    TrimWhereOfPadded([], m, [], pad);
  }

  /** `s` with every occurrence of `c` removed. */
  function Erase(s: string, c: char): (r: string)
    ensures c !in r
    ensures |r| <= |s|
  {
    if s == [] then []
    else if s[0] == c then Erase(s[1..], c)
    else [s[0]] + Erase(s[1..], c)
  }

  lemma {:induction false} EraseAppend(a: string, b: string, c: char)
    ensures Erase(a + b, c) == Erase(a, c) + Erase(b, c)
    decreases |a|
  {
    if a == [] {
      assert a + b == b;
    } else {
      assert (a + b)[0] == a[0];
      assert (a + b)[1..] == a[1..] + b;
      EraseAppend(a[1..], b, c);
    }
  }

  /** Number of occurrences of `c` in `s`. */
  function Count(s: string, c: char): (n: nat)
    ensures n <= |s|
  {
    if s == [] then 0
    else (if s[0] == c then 1 else 0) + Count(s[1..], c)
  }

  /** No occurrences counted exactly when there are none. */
  lemma {:induction false} CountZero(s: string, c: char)
    ensures Count(s, c) == 0 <==> c !in s
  {
    if s != [] {
      CountZero(s[1..], c);
      assert s == [s[0]] + s[1..];
    }
  }

  lemma {:induction false} CountAppend(a: string, b: string, c: char)
    ensures Count(a + b, c) == Count(a, c) + Count(b, c)
    decreases |a|
  {
    if a == [] {
      assert a + b == b;
    } else {
      assert (a + b)[0] == a[0];
      assert (a + b)[1..] == a[1..] + b;
      CountAppend(a[1..], b, c);
    }
  }

  /** The parts concatenated with `sep` between consecutive ones. */
  function Join(parts: seq<string>, sep: string): string {
    if parts == [] then []
    else if |parts| == 1 then parts[0]
    else parts[0] + sep + Join(parts[1..], sep)
  }

  predicate StartsWith(s: string, prefix: string) {
    |prefix| <= |s| && s[..|prefix|] == prefix
  }
}
