/** `DocumentProcessor.clean_text`: collapse whitespace runs, delete characters outside an
    allow-list, then `strip()`. */
module Cleaning {
  import opened Strings

  /** An approximation of Python's `\w` in a str pattern (Unicode letters, digits and `_`).
      Exact on ASCII; beyond ASCII only the Latin-1 letters, kana, Hangul syllables and
      full-width letters and digits are listed, so other Unicode letters and digits that
      Python keeps are dropped here. The properties below hold whatever this predicate is. */
  predicate IsWordChar(c: char)
  {
    || ('a' <= c <= 'z') || ('A' <= c <= 'Z') || ('0' <= c <= '9') || c == '_'
    || ('\U{C0}' <= c <= '\U{FF}' && c != '\U{D7}' && c != '\U{F7}')
    || ('\U{3041}' <= c <= '\U{3096}')
    || ('\U{30A1}' <= c <= '\U{30FA}')
    || ('\U{AC00}' <= c <= '\U{D7A3}')
    || ('\U{FF10}' <= c <= '\U{FF19}')
    || ('\U{FF21}' <= c <= '\U{FF3A}')
    || ('\U{FF41}' <= c <= '\U{FF5A}')
  }

  /** The range U+4E00..U+9FFF named in the allow-list. */
  predicate IsCjkIdeograph(c: char)
  {
    '\U{4E00}' <= c <= '\U{9FFF}'
  }

  /** The punctuation the allow-list names: ，。！？；： the ASCII double quote, （）《》.
      The pattern is written as two adjacent string literals, so the ASCII single quote the
      author apparently meant to list is not part of the class. */
  predicate IsListedPunctuation(c: char)
  {
    c in {'\U{FF0C}', '\U{3002}', '\U{FF01}', '\U{FF1F}', '\U{FF1B}', '\U{FF1A}', '"',
          '\U{FF08}', '\U{FF09}', '\U{300A}', '\U{300B}'}
  }

  /** The characters the second substitution keeps. */
  predicate Allowed(c: char)
  {
    IsWordChar(c) || IsSpace(c) || IsCjkIdeograph(c) || IsListedPunctuation(c)
  }

  predicate AllAllowed(s: string)
  {
    forall i :: 0 <= i < |s| ==> Allowed(s[i])
  }

  /** The only whitespace character in `s` is the plain space. */
  predicate OnlyPlainSpaces(s: string)
  {
    forall i :: 0 <= i < |s| && IsSpace(s[i]) ==> s[i] == ' '
  }

  predicate NoAdjacentSpaces(s: string)
  {
    forall i :: 0 <= i < |s| - 1 ==> !(IsSpace(s[i]) && IsSpace(s[i + 1]))
  }

  /** `a` can be obtained from `b` by deleting characters. */
  predicate IsSubsequence(a: string, b: string)
    decreases |b|
  {
    if |a| == 0 then true
    else if |b| == 0 then false
    else if a[0] == b[0] then IsSubsequence(a[1..], b[1..])
    else IsSubsequence(a, b[1..])
  }

  /** `s` with every whitespace character removed. */
  function NonSpace(s: string): string
    decreases |s|
  {
    if |s| == 0 then "" else (if IsSpace(s[0]) then "" else [s[0]]) + NonSpace(s[1..])
  }

  /** `re.sub(r'\s+', ' ', s)`: every maximal run of whitespace becomes one plain space. */
  function Collapse(s: string): (r: string)
    ensures |r| <= |s|
    ensures OnlyPlainSpaces(r)
    ensures NoAdjacentSpaces(r)
    ensures |r| == 0 <==> |s| == 0
    ensures |r| > 0 ==> (IsSpace(r[0]) <==> IsSpace(s[0]))
    decreases |s|
  {
    if |s| == 0 then ""
    else if IsSpace(s[0]) then " " + Collapse(s[LeadingSpaces(s)..])
    else [s[0]] + Collapse(s[1..])
  }

  /** `re.sub(r'[^...]', '', s)`: deletes every character outside the allow-list. */
  function KeepAllowed(s: string): (r: string)
    ensures AllAllowed(r)
    ensures IsSubsequence(r, s)
    decreases |s|
  {
    if |s| == 0 then ""
    else if Allowed(s[0]) then [s[0]] + KeepAllowed(s[1..])
    else KeepAllowed(s[1..])
  }

  /** `clean_text`: the two substitutions, then `strip()`. */
  function CleanText(text: string): (r: string)
    ensures r == [] || (!IsSpace(r[0]) && !IsSpace(r[|r| - 1]))
    ensures OnlyPlainSpaces(r)
    ensures AllAllowed(r)
    ensures IsSubsequence(r, Collapse(text))
  {
    var c := Collapse(text);
    var k := KeepAllowed(c);
    SubsequenceKeepsPlainSpaces(k, c);
    StripIsSubsequence(k);
    SubsequenceTransitive(Strip(k), k, c);
    Strip(k)
  }

  // ---------------------------------------------------------------------------------------
  // Subsequences

  lemma {:induction false} SubsequenceDropHead(a: string, b: string)
    requires |a| > 0 && IsSubsequence(a, b)
    ensures IsSubsequence(a[1..], b)
    decreases |b|
  {
    if a[0] != b[0] {
      SubsequenceDropHead(a, b[1..]);
      SubsequenceExtend(a[1..], b);
    } else {
      SubsequenceExtend(a[1..], b);
    }
  }

  lemma {:induction false} SubsequenceExtend(a: string, b: string)
    requires |b| > 0 && IsSubsequence(a, b[1..])
    ensures IsSubsequence(a, b)
    decreases |b|, 1
  {
    if |a| > 0 && a[0] == b[0] {
      SubsequenceDropHead(a, b[1..]);
    }
  }

  lemma {:induction false} SubsequenceTransitive(a: string, b: string, c: string)
    requires IsSubsequence(a, b) && IsSubsequence(b, c)
    ensures IsSubsequence(a, c)
    decreases |c|
  {
    if |a| > 0 {
      if b[0] == c[0] {
        if a[0] == b[0] {
          SubsequenceTransitive(a[1..], b[1..], c[1..]);
        } else {
          SubsequenceTransitive(a, b[1..], c[1..]);
          SubsequenceExtend(a, c);
        }
      } else {
        SubsequenceTransitive(a, b, c[1..]);
        SubsequenceExtend(a, c);
      }
    }
  }

  lemma {:induction false} PrefixIsSubsequence(s: string, j: nat)
    requires j <= |s|
    ensures IsSubsequence(s[..j], s)
    decreases |s|
  {
    if j > 0 {
      assert s[..j][1..] == s[1..][..j - 1];
      PrefixIsSubsequence(s[1..], j - 1);
    }
  }

  lemma {:induction false} SliceIsSubsequence(s: string, i: nat, j: nat)
    requires i <= j <= |s|
    ensures IsSubsequence(s[i..j], s)
    decreases i
  {
    if i == 0 {
      PrefixIsSubsequence(s, j);
    } else {
      var t := s[1..];
      assert s[i..j] == t[i - 1..j - 1] by {
        assert |s[i..j]| == |t[i - 1..j - 1]|;
        forall k | 0 <= k < j - i
          ensures s[i..j][k] == t[i - 1..j - 1][k]
        {
          assert s[i..j][k] == s[i + k] == t[i - 1 + k];
        }
      }
      SliceIsSubsequence(t, i - 1, j - 1);
      SubsequenceExtend(s[i..j], s);
    }
  }

  lemma StripIsSubsequence(s: string)
    ensures IsSubsequence(Strip(s), s)
  {
    var k := LeadingSpaces(s);
    SliceIsSubsequence(s, k, k + |Strip(s)|);
  }

  lemma {:induction false} SubsequenceKeepsPlainSpaces(a: string, b: string)
    requires IsSubsequence(a, b) && OnlyPlainSpaces(b)
    ensures OnlyPlainSpaces(a)
    decreases |b|
  {
    if |a| > 0 {
      if a[0] == b[0] {
        SubsequenceKeepsPlainSpaces(a[1..], b[1..]);
        assert forall i :: 1 <= i < |a| ==> a[i] == a[1..][i - 1];
      } else {
        SubsequenceKeepsPlainSpaces(a, b[1..]);
      }
    }
  }

  // ---------------------------------------------------------------------------------------
  // What the substitutions keep

  /** The whitespace collapse changes nothing but whitespace. */
  lemma {:induction false} CollapseKeepsText(s: string)
    ensures NonSpace(Collapse(s)) == NonSpace(s)
    decreases |s|
  {
    if |s| > 0 {
      if IsSpace(s[0]) {
        var k := LeadingSpaces(s);
        CollapseKeepsText(s[k..]);
        NonSpaceSkipsSpaces(s, k);
        assert (" " + Collapse(s[k..]))[1..] == Collapse(s[k..]);
      } else {
        CollapseKeepsText(s[1..]);
        assert ([s[0]] + Collapse(s[1..]))[1..] == Collapse(s[1..]);
      }
    }
  }

  lemma {:induction false} NonSpaceSkipsSpaces(s: string, k: nat)
    requires k <= |s| && forall i :: 0 <= i < k ==> IsSpace(s[i])
    ensures NonSpace(s) == NonSpace(s[k..])
    decreases k
  {
    if k > 0 {
      NonSpaceSkipsSpaces(s[1..], k - 1);
      assert s[1..][k - 1..] == s[k..];
    }
  }

  /** A string already in collapsed form is left alone by the collapse. */
  lemma {:induction false} CollapseFixpoint(s: string)
    requires OnlyPlainSpaces(s) && NoAdjacentSpaces(s)
    ensures Collapse(s) == s
    decreases |s|
  {
    if |s| > 0 {
      assert OnlyPlainSpaces(s[1..]) && NoAdjacentSpaces(s[1..]) by {
        assert forall i :: 0 <= i < |s| - 1 ==> s[1..][i] == s[i + 1];
      }
      CollapseFixpoint(s[1..]);
      if IsSpace(s[0]) {
        assert LeadingSpaces(s) == 1 by {
          if |s| > 1 {
            assert !IsSpace(s[1]);
          }
        }
      }
    }
  }

  lemma {:induction false} CollapseKeepsAllowed(s: string)
    requires AllAllowed(s)
    ensures AllAllowed(Collapse(s))
    decreases |s|
  {
    if |s| > 0 {
      var k := if IsSpace(s[0]) then LeadingSpaces(s) else 1;
      assert AllAllowed(s[k..]) by {
        assert forall i :: 0 <= i < |s| - k ==> s[k..][i] == s[k + i];
      }
      CollapseKeepsAllowed(s[k..]);
    }
  }

  /** The filter keeps a string exactly when every character of it is allowed. */
  lemma {:induction false} KeepAllowedNoop(s: string)
    ensures KeepAllowed(s) == s <==> AllAllowed(s)
    decreases |s|
  {
    if |s| > 0 {
      KeepAllowedNoop(s[1..]);
      if !Allowed(s[0]) {
        assert |KeepAllowed(s)| < |s| by {
          KeepAllowedShorter(s[1..]);
        }
      } else {
        assert AllAllowed(s) <==> AllAllowed(s[1..]) by {
          assert forall i :: 1 <= i < |s| ==> s[i] == s[1..][i - 1];
        }
        assert [s[0]] + s[1..] == s;
      }
    }
  }

  lemma {:induction false} KeepAllowedShorter(s: string)
    ensures |KeepAllowed(s)| <= |s|
    decreases |s|
  {
    if |s| > 0 {
      KeepAllowedShorter(s[1..]);
    }
  }

  lemma SliceNoAdjacent(s: string, i: nat, j: nat)
    requires i <= j <= |s| && NoAdjacentSpaces(s)
    ensures NoAdjacentSpaces(s[i..j])
  {
    assert forall k :: 0 <= k < j - i ==> s[i..j][k] == s[i + k];
  }

  // ---------------------------------------------------------------------------------------
  // Where each character goes

  /** One character is kept by the filter exactly when it is allowed. */
  lemma KeepAllowedChar(c: char)
    ensures KeepAllowed([c]) == if Allowed(c) then [c] else ""
  {
    assert [c][1..] == "";
  }

  /** The filter works character by character: it distributes over concatenation. */
  lemma {:induction false} KeepAllowedAppend(a: string, b: string)
    ensures KeepAllowed(a + b) == KeepAllowed(a) + KeepAllowed(b)
    decreases |a|
  {
    if |a| == 0 {
      assert a + b == b;
    } else {
      assert (a + b)[0] == a[0] && (a + b)[1..] == a[1..] + b;
      KeepAllowedAppend(a[1..], b);
    }
  }

  /** A maximal whitespace run becomes exactly one plain space in front of the collapsed
      rest. */
  lemma CollapseRun(w: string, s: string)
    requires |w| > 0 && AllSpace(w) && (|s| == 0 || !IsSpace(s[0]))
    ensures Collapse(w + s) == " " + Collapse(s)
  {
    assert LeadingSpaces(w + s) == |w|;
    assert (w + s)[|w|..] == s;
    assert IsSpace((w + s)[0]);
  }

  /** A non-whitespace character is copied to the output in place. */
  lemma CollapseWord(c: char, s: string)
    requires !IsSpace(c)
    ensures Collapse([c] + s) == [c] + Collapse(s)
  {
    assert ([c] + s)[1..] == s;
  }

  lemma {:induction false} NonSpaceAppend(a: string, b: string)
    ensures NonSpace(a + b) == NonSpace(a) + NonSpace(b)
    decreases |a|
  {
    if |a| == 0 {
      assert a + b == b;
    } else {
      assert (a + b)[0] == a[0] && (a + b)[1..] == a[1..] + b;
      NonSpaceAppend(a[1..], b);
    }
  }

  /** Dropping whitespace and dropping disallowed characters commute. */
  lemma {:induction false} NonSpaceKeepAllowed(s: string)
    ensures NonSpace(KeepAllowed(s)) == KeepAllowed(NonSpace(s))
    decreases |s|
  {
    if |s| > 0 {
      var c, t := s[0], s[1..];
      NonSpaceKeepAllowed(t);
      var head := if IsSpace(c) then "" else [c];
      assert NonSpace(s) == head + NonSpace(t);
      KeepAllowedAppend(head, NonSpace(t));
      if Allowed(c) {
        assert NonSpace(KeepAllowed(s)) == head + NonSpace(KeepAllowed(t)) by {
          assert KeepAllowed(s) == [c] + KeepAllowed(t);
          NonSpaceAppend([c], KeepAllowed(t));
        }
        if !IsSpace(c) {
          KeepAllowedChar(c);
        }
      } else {
        if !IsSpace(c) {
          KeepAllowedChar(c);
        }
      }
    }
  }

  /** `strip()` removes whitespace only. */
  lemma NonSpaceStrip(s: string)
    ensures NonSpace(Strip(s)) == NonSpace(s)
  {
    var r := Strip(s);
    var k := LeadingSpaces(s);
    var pre, post := s[..k], s[k + |r|..];
    assert s == pre + r + post;
    assert NonSpace(pre) == "" by {
      assert AllSpace(pre);
      NonSpaceEmpty(pre);
    }
    assert NonSpace(post) == "" by {
      assert AllSpace(post) by {
        forall i | 0 <= i < |post|
          ensures IsSpace(post[i])
        {
          assert post[i] == s[k + |r| + i];
        }
      }
      NonSpaceEmpty(post);
    }
    NonSpaceAppend(pre + r, post);
    NonSpaceAppend(pre, r);
  }

  /** Cleaning keeps every allowed non-whitespace character, in order, and nothing else:
      only whitespace differs from the input with the disallowed characters removed. */
  lemma CleanKeepsText(text: string)
    ensures NonSpace(CleanText(text)) == KeepAllowed(NonSpace(text))
  {
    var c := Collapse(text);
    NonSpaceStrip(KeepAllowed(c));
    NonSpaceKeepAllowed(c);
    CollapseKeepsText(text);
  }

  // ---------------------------------------------------------------------------------------
  // Idempotence

  /** Only whitespace is left out by `NonSpace` exactly when there is nothing else. */
  lemma {:induction false} NonSpaceEmpty(s: string)
    ensures NonSpace(s) == "" <==> AllSpace(s)
    decreases |s|
  {
    if |s| > 0 {
      NonSpaceEmpty(s[1..]);
      assert AllSpace(s) <==> IsSpace(s[0]) && AllSpace(s[1..]) by {
        if IsSpace(s[0]) && AllSpace(s[1..]) {
          assert forall i :: 1 <= i < |s| ==> s[i] == s[1..][i - 1];
        }
      }
    }
  }

  lemma {:induction false} SubsequenceOfSpaces(a: string, b: string)
    requires IsSubsequence(a, b) && AllSpace(b)
    ensures AllSpace(a)
    decreases |b|
  {
    if |a| > 0 {
      if a[0] == b[0] {
        SubsequenceOfSpaces(a[1..], b[1..]);
        assert forall i :: 1 <= i < |a| ==> a[i] == a[1..][i - 1];
      } else {
        SubsequenceOfSpaces(a, b[1..]);
      }
    }
  }

  /** Text made only of whitespace cleans to the empty string. */
  lemma BlankCleansToEmpty(text: string)
    requires AllSpace(text)
    ensures CleanText(text) == ""
  {
    var c := Collapse(text);
    NonSpaceEmpty(text);
    CollapseKeepsText(text);
    NonSpaceEmpty(c);
    SubsequenceOfSpaces(CleanText(text), c);
  }

  /** Cleaning a cleaned text changes it exactly when it holds two adjacent spaces: the
      deletion pass can bring two spaces together, and only a second collapse merges them. */
  lemma CleanFixpointIff(text: string)
    ensures var r := CleanText(text); CleanText(r) == r <==> NoAdjacentSpaces(r)
  {
    var r := CleanText(text);
    var c := Collapse(r);
    CollapseKeepsAllowed(r);
    KeepAllowedNoop(c);
    assert CleanText(r) == Strip(c);
    var k := LeadingSpaces(c);
    SliceNoAdjacent(c, k, k + |Strip(c)|);
    if NoAdjacentSpaces(r) {
      CollapseFixpoint(r);
      StripNoop(r);
    }
  }

  /** When every input character is on the allow-list, nothing is deleted, so cleaning is
      idempotent. */
  lemma CleanIdempotentOnAllowed(text: string)
    requires AllAllowed(text)
    ensures CleanText(CleanText(text)) == CleanText(text)
  {
    var c := Collapse(text);
    CollapseKeepsAllowed(text);
    KeepAllowedNoop(c);
    var k := LeadingSpaces(c);
    SliceNoAdjacent(c, k, k + |Strip(c)|);
    CleanFixpointIff(text);
  }

  /** "a", space, U+0001, space, "b". */
  const ControlSample: string := "a \U{1} b"
  const DoubleSpaced: string := "a  b"
  const SingleSpaced: string := "a b"

  /** Cleaning is not idempotent: the control character sits between two spaces, so deleting
      it after the collapse leaves a double space, which a second cleaning merges. */
  lemma CleanNotIdempotent()
    ensures CleanText(ControlSample) == DoubleSpaced
    ensures CleanText(DoubleSpaced) == SingleSpaced
    ensures CleanText(CleanText(ControlSample)) != CleanText(ControlSample)
  {
    CleanSample();
    CleanDoubleSpaced();
  }

  lemma CleanSample()
    ensures CleanText(ControlSample) == DoubleSpaced
  {
    SampleCollapsed();
    SampleFiltered();
    StripNoop(DoubleSpaced);
  }

  const Control: char := '\U{1}'

  /** The sample is already in collapsed form: U+0001 is not whitespace. */
  lemma SampleCollapsed()
    ensures Collapse(ControlSample) == ControlSample
  {
    assert !IsSpace(Control);
    assert ControlSample == ['a', ' ', Control, ' ', 'b'];
    CollapseFixpoint(ControlSample);
  }

  /** The filter deletes the control character and nothing else. */
  lemma SampleFiltered()
    ensures KeepAllowed(ControlSample) == DoubleSpaced
  {
    assert Allowed('a') && Allowed(' ') && Allowed('b') && !Allowed(Control);
    assert KeepAllowed([]) == [];
    assert KeepAllowed(['b']) == ['b'];
    assert KeepAllowed([' ', 'b']) == [' ', 'b'];
    assert KeepAllowed([Control, ' ', 'b']) == [' ', 'b'];
    assert KeepAllowed([' ', Control, ' ', 'b']) == [' ', ' ', 'b'];
    assert ControlSample == ['a', ' ', Control, ' ', 'b'];
    assert KeepAllowed(ControlSample) == ['a', ' ', ' ', 'b'];
  }

  lemma CleanDoubleSpaced()
    ensures CleanText(DoubleSpaced) == SingleSpaced
  {
    DoubleSpacedCollapses();
    SingleSpacedAllowed();
    StripNoop(SingleSpaced);
  }

  /** Two spaces collapse into one. */
  lemma DoubleSpacedCollapses()
    ensures Collapse(DoubleSpaced) == SingleSpaced
  {
    assert DoubleSpaced == ['a', ' ', ' ', 'b'];
    assert LeadingSpaces([' ', ' ', 'b']) == 2 by {
      assert LeadingSpaces(['b']) == 0;
      assert [' ', ' ', 'b'][1..] == [' ', 'b'];
      assert [' ', 'b'][1..] == ['b'];
    }
    assert Collapse(['b']) == ['b'] by {
      assert ['b'][1..] == [];
    }
    assert [' ', ' ', 'b'][2..] == ['b'];
    assert Collapse([' ', ' ', 'b']) == [' ', 'b'];
    assert DoubleSpaced[1..] == [' ', ' ', 'b'];
  }

  /** The filter keeps "a b" as it is. */
  lemma SingleSpacedAllowed()
    ensures KeepAllowed(SingleSpaced) == SingleSpaced
  {
    assert Allowed('a') && Allowed(' ') && Allowed('b');
    assert SingleSpaced == ['a', ' ', 'b'];
    KeepAllowedNoop(SingleSpaced);
  }
}
