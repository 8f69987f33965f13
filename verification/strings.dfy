/** Python string primitives the pipeline relies on, stated over `seq<char>`:
    whitespace, `strip`, `rstrip(c)`, `split`, `join`, substring search and `str(n)`. */
module Strings {

  /** Python's `str.isspace()`: the characters that `\s` matches in a str pattern and that
      `str.strip()` removes. */
  predicate IsSpace(c: char)
  {
    || ('\t' <= c <= '\r')
    || ('\U{1C}' <= c <= '\U{1F}')
    || c == ' '
    || c == '\U{85}'
    || c == '\U{A0}'
    || c == '\U{1680}'
    || ('\U{2000}' <= c <= '\U{200A}')
    || c == '\U{2028}'
    || c == '\U{2029}'
    || c == '\U{202F}'
    || c == '\U{205F}'
    || c == '\U{3000}'
  }

  predicate AllSpace(s: string)
  {
    forall i :: 0 <= i < |s| ==> IsSpace(s[i])
  }

  /** Length of the longest all-whitespace prefix. */
  function LeadingSpaces(s: string): (n: nat)
    ensures n <= |s|
    ensures forall i :: 0 <= i < n ==> IsSpace(s[i])
    ensures n < |s| ==> !IsSpace(s[n])
    decreases |s|
  {
    if |s| == 0 || !IsSpace(s[0]) then 0 else 1 + LeadingSpaces(s[1..])
  }

  /** Length of the longest all-whitespace suffix. */
  function TrailingSpaces(s: string): (n: nat)
    ensures n <= |s|
    ensures forall i :: |s| - n <= i < |s| ==> IsSpace(s[i])
    ensures n < |s| ==> !IsSpace(s[|s| - 1 - n])
    decreases |s|
  {
    if |s| == 0 || !IsSpace(s[|s| - 1]) then 0 else 1 + TrailingSpaces(s[..|s| - 1])
  }

  /** Python's `str.strip()`: the slice that starts at the first non-whitespace character and
      ends after the last one; everything outside it is whitespace. */
  function Strip(s: string): (r: string)
    ensures LeadingSpaces(s) + |r| <= |s|
    ensures r == s[LeadingSpaces(s)..LeadingSpaces(s) + |r|]
    ensures forall i :: 0 <= i < |s| && !(LeadingSpaces(s) <= i < LeadingSpaces(s) + |r|) ==> IsSpace(s[i])
    ensures r == [] || (!IsSpace(r[0]) && !IsSpace(r[|r| - 1]))
  {
    var k := LeadingSpaces(s);
    var rest := s[k..];
    rest[..|rest| - TrailingSpaces(rest)]
  }

  /** A string without whitespace at either end is its own `strip()`. */
  lemma StripNoop(s: string)
    requires s == [] || (!IsSpace(s[0]) && !IsSpace(s[|s| - 1]))
    ensures Strip(s) == s
  {
    assert LeadingSpaces(s) == 0;
    if |s| > 0 {
      assert !IsSpace(s[|s| - 1]);
    }
  }

  /** Python's `str.rstrip(c)` for a single character `c`: drops every trailing `c`. */
  function RStripChar(s: string, c: char): (r: string)
    ensures |r| <= |s| && r == s[..|r|]
    ensures forall i :: |r| <= i < |s| ==> s[i] == c
    ensures r == [] || r[|r| - 1] != c
    decreases |s|
  {
    if |s| > 0 && s[|s| - 1] == c then RStripChar(s[..|s| - 1], c) else s
  }

  predicate NoneIn(s: string, seps: set<char>)
  {
    forall i :: 0 <= i < |s| ==> s[i] !in seps
  }

  /** Python's `re.split('[...]', s)` for a character class, and `s.split(c)` for a single
      character: the fragments between separators, empty ones included. */
  function SplitOn(s: string, seps: set<char>): (r: seq<string>)
    ensures |r| >= 1
    ensures forall k :: 0 <= k < |r| ==> NoneIn(r[k], seps)
    ensures NoneIn(s, seps) ==> r == [s]
    ensures |r| == 1 ==> r[0] == s
    decreases |s|
  {
    if |s| == 0 then [""]
    else
      var rest := SplitOn(s[1..], seps);
      if s[0] in seps then [""] + rest
      else
        assert NoneIn(s, seps) ==> NoneIn(s[1..], seps) && [s[0]] + s[1..] == s;
        [[s[0]] + rest[0]] + rest[1..]
  }

  /** Python's `sep.join(fs)`. */
  function JoinWith(fs: seq<string>, sep: string): string
    decreases |fs|
  {
    if |fs| == 0 then ""
    else if |fs| == 1 then fs[0]
    else fs[0] + sep + JoinWith(fs[1..], sep)
  }

  lemma JoinWithCons(a: string, fs: seq<string>, sep: string)
    ensures JoinWith([a] + fs, sep) == if |fs| == 0 then a else a + sep + JoinWith(fs, sep)
  {
    assert ([a] + fs)[1..] == fs;
  }

  /** Every separator character of `s` replaced by `c`. */
  function Normalize(s: string, seps: set<char>, c: char): (r: string)
    ensures |r| == |s|
  {
    seq(|s|, i requires 0 <= i < |s| => if s[i] in seps then c else s[i])
  }

  lemma NormalizeCons(s: string, seps: set<char>, c: char)
    requires |s| > 0
    ensures Normalize(s, seps, c) == [if s[0] in seps then c else s[0]] + Normalize(s[1..], seps, c)
  {
  }

  /** Splitting and re-joining with one separator gives the input back, with every separator
      normalised to that one. */
  lemma {:induction false} JoinSplit(s: string, seps: set<char>, c: char)
    ensures JoinWith(SplitOn(s, seps), [c]) == Normalize(s, seps, c)
    decreases |s|
  {
    if |s| > 0 {
      var rest := SplitOn(s[1..], seps);
      var j := JoinWith(rest, [c]);
      assert j == Normalize(s[1..], seps, c) by { JoinSplit(s[1..], seps, c); }
      NormalizeCons(s, seps, c);
      if s[0] in seps {
        assert JoinWith(SplitOn(s, seps), [c]) == [c] + j by {
          assert SplitOn(s, seps) == [""] + rest;
          JoinWithCons("", rest, [c]);
        }
      } else {
        var head := [s[0]] + rest[0];
        assert JoinWith(SplitOn(s, seps), [c]) == [s[0]] + j by {
          assert SplitOn(s, seps) == [head] + rest[1..];
          JoinWithCons(head, rest[1..], [c]);
          JoinWithCons(rest[0], rest[1..], [c]);
          assert rest == [rest[0]] + rest[1..];
        }
      }
    }
  }

  lemma {:induction false} SplitJoinStep(a: string, c: char, rest: string, seps: set<char>)
    requires NoneIn(a, seps) && c in seps
    ensures SplitOn(a + [c] + rest, seps) == [a] + SplitOn(rest, seps)
    decreases |a|
  {
    if |a| > 0 {
      assert (a + [c] + rest)[1..] == a[1..] + [c] + rest;
      SplitJoinStep(a[1..], c, rest, seps);
      assert [a[0]] + a[1..] == a;
    } else {
      assert (a + [c] + rest)[1..] == rest;
    }
  }

  /** Re-splitting separator-free fragments joined by a separator recovers the fragments. */
  lemma {:induction false} SplitJoin(fs: seq<string>, seps: set<char>, c: char)
    requires c in seps && |fs| >= 1
    requires forall k :: 0 <= k < |fs| ==> NoneIn(fs[k], seps)
    ensures SplitOn(JoinWith(fs, [c]), seps) == fs
    decreases |fs|
  {
    if |fs| > 1 {
      SplitJoinStep(fs[0], c, JoinWith(fs[1..], [c]), seps);
      SplitJoin(fs[1..], seps, c);
      assert fs == [fs[0]] + fs[1..];
    }
  }

  /** `s.split(c)[-1]` for a separator set: the text after the last separator. */
  function LastField(s: string, seps: set<char>): string
  {
    var parts := SplitOn(s, seps);
    parts[|parts| - 1]
  }

  /** `r` is the separator-free suffix of `s` that is either all of `s` or starts right after
      a separator. */
  predicate IsLastField(s: string, r: string, seps: set<char>)
  {
    && NoneIn(r, seps)
    && |r| <= |s| && s[|s| - |r|..] == r
    && (|r| == |s| || s[|s| - |r| - 1] in seps)
  }

  /** At most one string is the last field of `s`. */
  lemma LastFieldUnique(s: string, r1: string, r2: string, seps: set<char>)
    requires IsLastField(s, r1, seps) && IsLastField(s, r2, seps)
    ensures r1 == r2
  {
  }

  /** `split(...)[-1]` is the text after the last separator, or all of `s` when it has none. */
  lemma {:induction false} LastFieldSpec(s: string, seps: set<char>)
    ensures IsLastField(s, LastField(s, seps), seps)
    decreases |s|
  {
    if |s| > 0 {
      LastFieldSpec(s[1..], seps);
      var rest := SplitOn(s[1..], seps);
      var r := LastField(s[1..], seps);
      if s[0] !in seps && |rest| == 1 {
        assert s[1..] == r;
      }
    }
  }

  /** The field after a separator does not depend on what precedes the separator. */
  lemma LastFieldAfterSep(x: string, c: char, y: string, seps: set<char>)
    requires c in seps
    ensures LastField(x + [c] + y, seps) == LastField(y, seps)
  {
    var s := x + [c] + y;
    var r := LastField(y, seps);
    assert IsLastField(s, r, seps) by {
      LastFieldSpec(y, seps);
      assert s[|s| - |y|..] == y;
      assert s[|s| - |r|..] == y[|y| - |r|..];
      if |r| == |y| {
        assert s[|s| - |r| - 1] == c;
      } else {
        assert s[|s| - |r| - 1] == y[|y| - |r| - 1];
      }
    }
    LastFieldSpec(s, seps);
    LastFieldUnique(s, r, LastField(s, seps), seps);
  }

  /** A string without separators is its own last field. */
  lemma LastFieldOfPlain(s: string, seps: set<char>)
    requires NoneIn(s, seps)
    ensures LastField(s, seps) == s
  {
    LastFieldSpec(s, seps);
    LastFieldUnique(s, s, LastField(s, seps), seps);
  }

  /** Appending separator-free text extends the last field. */
  lemma LastFieldAppend(x: string, y: string, seps: set<char>)
    requires NoneIn(y, seps)
    ensures LastField(x + y, seps) == LastField(x, seps) + y
  {
    var s := x + y;
    var r := LastField(x, seps) + y;
    LastFieldSpec(x, seps);
    LastFieldSpec(s, seps);
    assert s[|s| - |r|..] == x[|x| - |r| + |y|..] + y;
    if |r| < |s| {
      assert s[|s| - |r| - 1] == x[|x| - |LastField(x, seps)| - 1];
    }
    LastFieldUnique(s, r, LastField(s, seps), seps);
  }

  /** Python's `m in s` for strings. */
  function Contains(s: string, m: string): bool
    decreases |s|
  {
    |m| <= |s| && (s[..|m|] == m || Contains(s[1..], m))
  }

  lemma {:induction false} ContainsAt(s: string, m: string, i: nat)
    requires i + |m| <= |s| && s[i..i + |m|] == m
    ensures Contains(s, m)
    decreases i
  {
    if i > 0 {
      assert s[1..][i - 1..i - 1 + |m|] == s[i..i + |m|];
      ContainsAt(s[1..], m, i - 1);
    } else {
      assert s[..|m|] == s[i..i + |m|];
    }
  }

  /** A non-empty needle whose first character never occurs in `s` is not in `s`. */
  lemma {:induction false} AbsentFirst(s: string, m: string)
    requires |m| > 0 && forall i :: 0 <= i < |s| ==> s[i] != m[0]
    ensures !Contains(s, m)
    decreases |s|
  {
    if |m| <= |s| {
      assert s[..|m|][0] == s[0];
      AbsentFirst(s[1..], m);
    }
  }

  lemma {:induction false} ContainsPrepend(a: string, b: string, m: string)
    requires Contains(b, m)
    ensures Contains(a + b, m)
    decreases |a|
  {
    if |a| > 0 {
      assert (a + b)[1..] == a[1..] + b;
      ContainsPrepend(a[1..], b, m);
    } else {
      assert a + b == b;
    }
  }

  lemma {:induction false} ContainsAppend(a: string, b: string, m: string)
    requires Contains(a, m)
    ensures Contains(a + b, m)
    decreases |a|
  {
    if a[..|m|] == m {
      assert (a + b)[..|m|] == a[..|m|];
    } else {
      assert (a + b)[1..] == a[1..] + b;
      ContainsAppend(a[1..], b, m);
    }
  }

  /** A needle free of `c` that occurs in `x + [c] + y` occurs in `x` or in `y`. */
  lemma {:induction false} ContainsAcross(x: string, c: char, y: string, m: string)
    requires forall i :: 0 <= i < |m| ==> m[i] != c
    requires Contains(x + [c] + y, m)
    ensures Contains(x, m) || Contains(y, m)
    decreases |x|
  {
    var s := x + [c] + y;
    if |m| == 0 {
      assert y[..0] == m;
    } else if |x| == 0 {
      assert s[..|m|][0] == c;
      assert s[1..] == y;
    } else {
      if |m| > |x| {
        assert s[..|m|][|x|] == c;
      }
      if s[..|m|] == m {
        assert x[..|m|] == s[..|m|];
      } else {
        assert s[1..] == x[1..] + [c] + y;
        ContainsAcross(x[1..], c, y, m);
      }
    }
  }

  /** A prefix that holds no copy of the needle's first character cannot contribute to a match. */
  lemma {:induction false} ContainsAfterPrefix(p: string, y: string, m: string)
    requires |m| > 0 && forall i :: 0 <= i < |p| ==> p[i] != m[0]
    ensures Contains(p + y, m) <==> Contains(y, m)
    decreases |p|
  {
    if |p| == 0 {
      assert p + y == y;
    } else {
      var s := p + y;
      assert s[1..] == p[1..] + y;
      ContainsAfterPrefix(p[1..], y, m);
      if |m| <= |s| {
        assert s[..|m|][0] == p[0];
      }
    }
  }

  /** A needle free of `c`, and non-empty, occurs in lines joined by `c` exactly when it
      occurs in one of the lines. */
  lemma {:induction false} ContainsJoin(lines: seq<string>, c: char, m: string)
    requires |m| > 0 && forall i :: 0 <= i < |m| ==> m[i] != c
    ensures Contains(JoinWith(lines, [c]), m) <==> exists k :: 0 <= k < |lines| && Contains(lines[k], m)
    decreases |lines|
  {
    if |lines| == 0 {
      assert !Contains("", m);
    } else if |lines| > 1 {
      var rest := JoinWith(lines[1..], [c]);
      assert JoinWith(lines, [c]) == lines[0] + [c] + rest;
      ContainsJoin(lines[1..], c, m);
      if Contains(JoinWith(lines, [c]), m) {
        ContainsAcross(lines[0], c, rest, m);
        if !Contains(lines[0], m) {
          var k :| 0 <= k < |lines[1..]| && Contains(lines[1..][k], m);
          assert lines[k + 1] == lines[1..][k];
        }
      }
      if exists k :: 0 <= k < |lines| && Contains(lines[k], m) {
        var k :| 0 <= k < |lines| && Contains(lines[k], m);
        if k == 0 {
          ContainsAppend(lines[0], [c] + rest, m);
          assert lines[0] + ([c] + rest) == lines[0] + [c] + rest;
        } else {
          assert lines[1..][k - 1] == lines[k];
          ContainsPrepend(lines[0] + [c], rest, m);
        }
      }
    }
  }

  /** The decimal digit for `d`. */
  function Digit(d: nat): char
    requires d < 10
  {
    "0123456789"[d]
  }

  predicate IsDigit(c: char)
  {
    '0' <= c <= '9'
  }

  /** Python's `str(n)` for a natural number. */
  function NatToString(n: nat): (r: string)
    ensures |r| >= 1
    ensures forall i :: 0 <= i < |r| ==> IsDigit(r[i])
    ensures |r| > 1 ==> r[0] != '0'
    decreases n
  {
    if n < 10 then [Digit(n)] else NatToString(n / 10) + [Digit(n % 10)]
  }

  /** Reads a string of decimal digits back as a number. */
  function DigitsValue(s: string): nat
    requires forall i :: 0 <= i < |s| ==> IsDigit(s[i])
    decreases |s|
  {
    if |s| == 0 then 0
    else
      assert IsDigit(s[|s| - 1]);
      10 * DigitsValue(s[..|s| - 1]) + ((s[|s| - 1] as int) - ('0' as int))
  }

  /** The line numbers written into prompts can be read back. */
  lemma {:induction false} NatToStringRoundTrip(n: nat)
    ensures DigitsValue(NatToString(n)) == n
    decreases n
  {
    var r := NatToString(n);
    if n >= 10 {
      NatToStringRoundTrip(n / 10);
      var p := NatToString(n / 10);
      assert r == p + [Digit(n % 10)];
      assert r[..|r| - 1] == p;
      DigitValue(n % 10);
    } else {
      assert r[..|r| - 1] == [];
      DigitValue(n);
    }
  }

  /** The digit written for `d` reads back as `d`. */
  lemma DigitValue(d: nat)
    requires d < 10
    ensures (Digit(d) as int) - ('0' as int) == d
  {
  }

  /** Python's `"".join(ss)`. */
  function Concat(ss: seq<string>): string
    decreases |ss|
  {
    if |ss| == 0 then "" else ss[0] + Concat(ss[1..])
  }

  lemma {:induction false} ConcatAppend(a: seq<string>, b: seq<string>)
    ensures Concat(a + b) == Concat(a) + Concat(b)
    decreases |a|
  {
    if |a| == 0 {
      assert a + b == b;
    } else {
      assert (a + b)[1..] == a[1..] + b;
      ConcatAppend(a[1..], b);
    }
  }
}
