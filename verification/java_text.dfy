/** The java.lang.String and int operations the grading code relies on:
    `trim`, `replaceAll(" +", "\n")`, ASCII `equalsIgnoreCase`, and `/` on
    `int`, which truncates toward zero. */
module JavaText {
  import Text

  /** `String.trim()`: drop leading and trailing characters at or below U+0020. */
  function Trim(s: string): string {
    Text.TrimWhere(s, Text.JavaSpace)
  }

  /** `s` with its leading run of ' ' removed. */
  function SkipSpaces(s: string): (r: string)
    ensures |r| <= |s|
    ensures s != [] && s[0] == ' ' ==> |r| < |s|
  {
    if s != [] && s[0] == ' ' then SkipSpaces(s[1..]) else s
  }

  /** SkipSpaces drops a run of spaces from the front and stops at the
      first other character. */
  lemma {:induction false} SkipSpacesFacts(s: string)
    ensures SkipSpaces(s) == s[|s| - |SkipSpaces(s)|..]
    ensures SkipSpaces(s) == [] || SkipSpaces(s)[0] != ' '
    ensures forall i :: 0 <= i < |s| - |SkipSpaces(s)| ==> s[i] == ' '
  {
    if s != [] && s[0] == ' ' {
      SkipSpacesFacts(s[1..]);
    }
  }

  /** `s.replaceAll(" +", "\n")`: every maximal run of ' ' becomes one '\n'. */
  function CollapseSpaces(s: string): (r: string)
    ensures ' ' !in r
    decreases |s|
  {
    if s == [] then []
    else if s[0] == ' ' then "\n" + CollapseSpaces(SkipSpaces(s))
    else [s[0]] + CollapseSpaces(s[1..])
  }

  /** Text without spaces is left as it is. */
  lemma {:induction false} CollapseWithoutSpaces(s: string)
    requires ' ' !in s
    ensures CollapseSpaces(s) == s
    decreases |s|
  {
    if s != [] {
      assert ' ' !in s[1..];
      CollapseWithoutSpaces(s[1..]);
    }
  }

  /** Collapsing keeps a non-space first and last character where it is. */
  lemma {:induction false} CollapseKeepsEnds(s: string)
    ensures s != [] && s[0] != ' ' ==> CollapseSpaces(s) != [] && CollapseSpaces(s)[0] == s[0]
    ensures s != [] && s[|s| - 1] != ' ' ==>
              CollapseSpaces(s) != [] && CollapseSpaces(s)[|CollapseSpaces(s)| - 1] == s[|s| - 1]
    decreases |s|
  {
    if s != [] && s[|s| - 1] != ' ' {
      if s[0] == ' ' {
        var rest := SkipSpaces(s);
        SkipSpacesFacts(s);
        assert rest != [] && rest[|rest| - 1] == s[|s| - 1];
        CollapseKeepsEnds(rest);
      } else if |s| > 1 {
        assert s[1..][|s[1..]| - 1] == s[|s| - 1];
        CollapseKeepsEnds(s[1..]);
      }
    }
  }

  /** `n` spaces. */
  function Spaces(n: nat): (r: string)
    ensures |r| == n
  {
    seq(n, _ => ' ')
  }

  lemma {:induction false} SkipSpacesOfRun(k: nat, b: string)
    requires b == [] || b[0] != ' '
    ensures SkipSpaces(Spaces(k) + b) == b
  {
    if k > 0 {
      assert (Spaces(k) + b)[1..] == Spaces(k - 1) + b;
      SkipSpacesOfRun(k - 1, b);
    } else {
      assert Spaces(k) + b == b;
    }
  }

  /** A text that begins with a run of spaces collapses to a newline followed
      by the collapse of what comes after the run. */
  lemma CollapseLeadingRun(n: nat, x: string)
    requires n >= 1
    requires x == [] || x[0] != ' '
    ensures CollapseSpaces(Spaces(n) + x) == "\n" + CollapseSpaces(x)
  {
    SkipSpacesOfRun(n, x);
  }

  /** Any text splits into its leading run of spaces and the rest. */
  lemma SplitLeadingRun(a: string) returns (n: nat, rest: string)
    ensures a == Spaces(n) + rest
    ensures rest == SkipSpaces(a)
    ensures rest == [] || rest[0] != ' '
    ensures a != [] && a[0] == ' ' ==> n >= 1
  {
    rest := SkipSpaces(a);
    n := |a| - |rest|;
    SkipSpacesFacts(a);
    forall i | 0 <= i < |a| ensures a[i] == (Spaces(n) + rest)[i] {
      if i >= n {
        assert a[i] == rest[i - n];
      }
    }
  }

  /** A maximal run of one or more spaces becomes exactly one newline, and
      the text on either side of the run is collapsed on its own. */
  lemma {:induction false} CollapseRun(a: string, k: nat, b: string)
    requires k >= 1
    requires a == [] || a[|a| - 1] != ' '
    requires b == [] || b[0] != ' '
    ensures CollapseSpaces(a + Spaces(k) + b) == CollapseSpaces(a) + "\n" + CollapseSpaces(b)
    decreases |a|
  {
    if a == [] {
      assert a + Spaces(k) + b == Spaces(k) + b;
      CollapseLeadingRun(k, b);
    } else if a[0] == ' ' {
      // a starts with its own run of spaces, which ends before a does
      var n, rest := SplitLeadingRun(a);
      assert rest != [] && rest[|rest| - 1] == a[|a| - 1];
      CollapseRun(rest, k, b);
      CollapseLeadingRun(n, rest + Spaces(k) + b);
      CollapseLeadingRun(n, rest);
      RunAfterSpaces(Spaces(n), rest, Spaces(k), b);
    } else {
      assert a == [a[0]] + a[1..];
      CollapseRun(a[1..], k, b);
      RunAfterChar(a[0], a[1..], Spaces(k), b);
    }
  }

  lemma {:induction false} RunAfterChar(c: char, tail: string, run: string, b: string)
    requires c != ' '
    requires CollapseSpaces(tail + run + b) == CollapseSpaces(tail) + "\n" + CollapseSpaces(b)
    ensures CollapseSpaces([c] + tail + run + b) == CollapseSpaces([c] + tail) + "\n" + CollapseSpaces(b)
  {
    calc {
      CollapseSpaces([c] + tail + run + b);
      { assert [c] + tail + run + b == [c] + (tail + run + b); }
      CollapseSpaces([c] + (tail + run + b));
      { CollapseCons(c, tail + run + b); }
      [c] + CollapseSpaces(tail + run + b);
      { CollapseCons(c, tail); }
      CollapseSpaces([c] + tail) + "\n" + CollapseSpaces(b);
    }
  }

  lemma {:induction false} RunAfterSpaces(lead: string, rest: string, run: string, b: string)
    requires CollapseSpaces(lead + (rest + run + b)) == "\n" + CollapseSpaces(rest + run + b)
    requires CollapseSpaces(lead + rest) == "\n" + CollapseSpaces(rest)
    requires CollapseSpaces(rest + run + b) == CollapseSpaces(rest) + "\n" + CollapseSpaces(b)
    ensures CollapseSpaces(lead + rest + run + b) == CollapseSpaces(lead + rest) + "\n" + CollapseSpaces(b)
  {
    assert lead + rest + run + b == lead + (rest + run + b);
  }

  lemma CollapseCons(c: char, x: string)
    requires c != ' '
    ensures CollapseSpaces([c] + x) == [c] + CollapseSpaces(x)
  {
    assert ([c] + x)[1..] == x;
  }

  /** Apart from spaces and newlines, collapsing passes the text through
      unchanged and in order (tabs and other control characters included). */
  lemma {:induction false} CollapseKeepsContent(s: string)
    ensures Text.Erase(CollapseSpaces(s), '\n') == Text.Erase(Text.Erase(s, ' '), '\n')
    decreases |s|
  {
    if s == [] {
    } else if s[0] == ' ' {
      var n, rest := SplitLeadingRun(s);
      EraseSpaces(n, rest);
      CollapseKeepsContent(rest);
      assert "\n" + CollapseSpaces(rest) == ['\n'] + CollapseSpaces(rest);
    } else {
      assert s == [s[0]] + s[1..];
      CollapseKeepsContent(s[1..]);
    }
  }

  lemma {:induction false} EraseSpaces(n: nat, rest: string)
    ensures Text.Erase(Spaces(n) + rest, ' ') == Text.Erase(rest, ' ')
    decreases n
  {
    if n > 0 {
      assert (Spaces(n) + rest)[1..] == Spaces(n - 1) + rest;
      EraseSpaces(n - 1, rest);
    } else {
      assert Spaces(n) + rest == rest;
    }
  }

  /** The standard-input normaliser of the C, C++ and Python runners:
      `input.trim().replaceAll(" +", "\n") + "\n"`. */
  function NormaliseInput(input: string): (r: string)
    ensures |r| >= 1 && r[|r| - 1] == '\n'
    ensures ' ' !in r
    ensures Text.All(input, Text.JavaSpace) ==> r == "\n"
  {
    CollapseSpaces(Trim(input)) + "\n"
  }

  /** The normaliser passes every character other than a space or a newline
      through, in order: tokens separated by spaces reach the program as the
      same tokens, one per line. */
  lemma NormaliseKeepsTokens(input: string)
    ensures Text.Erase(NormaliseInput(input), '\n')
         == Text.Erase(Text.Erase(Trim(input), ' '), '\n')
  {
    var x := CollapseSpaces(Trim(input));
    Text.EraseAppend(x, "\n", '\n');
    assert Text.Erase("\n", '\n') == [];
    CollapseKeepsContent(Trim(input));
  }

  /** Normalising an already normalised input changes nothing. */
  lemma NormaliseIdempotent(input: string)
    ensures NormaliseInput(NormaliseInput(input)) == NormaliseInput(input)
  {
    var x := CollapseSpaces(Trim(input));
    CollapseUnpadded(Trim(input));
    TrimDropsFinalNewline(x);
    CollapseWithoutSpaces(x);
  }

  /** Collapsing spaces keeps trimmed text trimmed. */
  lemma CollapseUnpadded(t: string)
    requires Text.Unpadded(t, Text.JavaSpace)
    ensures Text.Unpadded(CollapseSpaces(t), Text.JavaSpace)
  {
    CollapseKeepsEnds(t);
  }

  /** Trimming drops the newline the normaliser appends. */
  lemma TrimDropsFinalNewline(x: string)
    requires Text.Unpadded(x, Text.JavaSpace)
    ensures Trim(x + "\n") == x
  {
    assert Text.All("\n", Text.JavaSpace);
    assert [] + x + "\n" == x + "\n";
    Text.TrimWhereOfPadded([], x, "\n", Text.JavaSpace);
  }

  /** Lower-casing of the ASCII letters; other characters are unchanged. */
  function AsciiLower(c: char): (r: char)
    ensures 'A' <= c <= 'Z' ==> 'a' <= r <= 'z' && r as int - 'a' as int == c as int - 'A' as int
    ensures !('A' <= c <= 'Z') ==> r == c
  {
    if 'A' <= c <= 'Z' then (c as int + 32) as char else c
  }

  /** `a.equalsIgnoreCase(b)` for the ASCII letters. */
  predicate EqualsIgnoreCase(a: string, b: string) {
    |a| == |b| && forall i :: 0 <= i < |a| ==> AsciiLower(a[i]) == AsciiLower(b[i])
  }

  function Abs(x: int): nat {
    if x < 0 then -x else x
  }

  /** Java's `a / b` on `int`: the quotient truncated toward zero.  The product
      `q * b` lies between zero and `a`, less than one `|b|` away from `a`. */
  function JavaDiv(a: int, b: int): (q: int)
    requires b != 0
    ensures 0 <= q * b <= a || a <= q * b <= 0
    ensures Abs(a - q * b) < Abs(b)
  {
    var m := NatDiv(Abs(a), Abs(b));
    if (a >= 0) == (b > 0) then
      assert m * b == m * Abs(b) || m * b == -(m * Abs(b));
      m
    else
      var q: int := 0 - (m as int);
      assert q * b == m * Abs(b) || q * b == -(m * Abs(b));
      q
  }

  /** Division of naturals, with the facts JavaDiv needs about it. */
  function NatDiv(a: nat, b: nat): (q: nat)
    requires b > 0
    ensures 0 <= q * b <= a < q * b + b
  {
    assert a == b * (a / b) + a % b;
    a / b
  }
}
