/** TerminalUi::sanitize_input (src/client/terminal_ui.cpp): drop terminal escape sequences and carriage
    returns, then trim. Character classes are those of the C locale. */
module Sanitizer {

  const ESC: char := '\U{1B}'
  const CR: char := '\r'

  predicate IsSpace(c: char) {
    c == ' ' || '\t' <= c <= '\r'
  }

  /** What may stand between "ESC [" and the final byte of a control sequence. */
  predicate IsParameter(c: char) {
    '0' <= c <= '9' || c == ';' || c == '?' || c == ' '
  }

  function SkipParameters(s: string, i: nat): (j: nat)
    requires i <= |s|
    ensures i <= j <= |s|
    decreases |s| - i
  {
    if i < |s| && IsParameter(s[i]) then SkipParameters(s, i + 1) else i
  }

  /** Where scanning goes on after the escape character at position i. */
  function AfterEscape(s: string, i: nat): (j: nat)
    requires i < |s|
    ensures j > i
  {
    if i + 1 < |s| && s[i + 1] == '[' then
      var k := SkipParameters(s, i + 2);
      if k < |s| then k + 1 else k
    else if i + 1 < |s| && s[i + 1] == 'O' then i + 3
    else i + 1
  }

  /** The characters kept from position i on. */
  function Strip(s: string, i: nat): string
    decreases |s| - i
  {
    if i >= |s| then ""
    else if s[i] == ESC then Strip(s, AfterEscape(s, i))
    else if s[i] == CR then Strip(s, i + 1)
    else [s[i]] + Strip(s, i + 1)
  }

  function TrimLeft(s: string): string {
    if s != "" && IsSpace(s[0]) then TrimLeft(s[1..]) else s
  }

  function TrimRight(s: string): string {
    if s != "" && IsSpace(s[|s| - 1]) then TrimRight(s[..|s| - 1]) else s
  }

  function Sanitized(s: string): string {
    TrimRight(TrimLeft(Strip(s, 0)))
  }

  /** The scan over one escape sequence. */
  method SkipEscape(input: string, i: nat) returns (j: nat)
    requires i < |input|
    ensures j == AfterEscape(input, i)
  {
    j := i + 1;
    if j < |input| && input[j] == '[' {
      j := j + 1;
      while j < |input| && IsParameter(input[j])
        invariant i + 2 <= j <= |input| && SkipParameters(input, j) == SkipParameters(input, i + 2)
      {
        j := j + 1;
      }
      if j < |input| {
        j := j + 1;
      }
    } else if j < |input| && input[j] == 'O' {
      j := j + 2;
    }
  }

  /** The main scan of sanitize_input. */
  method StripInput(input: string) returns (result: string)
    ensures result == Strip(input, 0)
  {
    result := "";
    var i := 0;
    while i < |input|
      invariant result + Strip(input, i) == Strip(input, 0)
      decreases |input| - i
    {
      if input[i] == ESC {
        i := SkipEscape(input, i);
      } else if input[i] == CR {
        i := i + 1;
      } else {
        assert result + ([input[i]] + Strip(input, i + 1)) == (result + [input[i]]) + Strip(input, i + 1);
        result := result + [input[i]];
        i := i + 1;
      }
    }
    assert result + "" == result;
  }

  lemma SliceLast(s: string, i: nat, j: nat)
    requires i < j <= |s|
    ensures |s[i..j]| == j - i && s[i..j][j - i - 1] == s[j - 1] && s[i..j][..j - i - 1] == s[i..j - 1]
  {
  }

  method SanitizeInput(input: string) returns (r: string)
    ensures r == Sanitized(input)
  {
    var result := StripInput(input);
    var start := 0;
    while start < |result| && IsSpace(result[start])
      invariant start <= |result| && TrimLeft(result[start..]) == TrimLeft(result)
    {
      assert result[start..][1..] == result[start + 1..];
      start := start + 1;
    }
    ghost var left := result[start..];
    var end := |result|;
    assert result[start..end] == left;
    while end > start && IsSpace(result[end - 1])
      invariant start <= end <= |result| && TrimRight(result[start..end]) == TrimRight(left)
    {
      SliceLast(result, start, end);
      end := end - 1;
    }
    r := result[start..end];
  }

  predicate Clean(s: string) {
    ESC !in s && CR !in s
  }

  predicate Trimmed(s: string) {
    s != "" ==> !IsSpace(s[0]) && !IsSpace(s[|s| - 1])
  }

  /** a is what is left of b when some characters are deleted. */
  predicate Subsequence(a: string, b: string) {
    a == "" || (b != "" && ((a[0] == b[0] && Subsequence(a[1..], b[1..])) || Subsequence(a, b[1..])))
  }

  lemma {:induction false} SubsequenceOfSlice(s: string, i: nat, j: nat)
    requires i <= j <= |s|
    ensures Subsequence(s[i..j], s)
    decreases |s|
  {
    if i < j {
      if i > 0 {
        assert s[1..][i - 1..j - 1] == s[i..j];
        SubsequenceOfSlice(s[1..], i - 1, j - 1);
      } else {
        assert s[0..j][1..] == s[1..][..j - 1];
        SubsequenceOfSlice(s[1..], 0, j - 1);
      }
    }
  }

  lemma {:induction false} SubsequenceTransitive(a: string, b: string, c: string)
    requires Subsequence(a, b) && Subsequence(b, c)
    ensures Subsequence(a, c)
    decreases |c|
  {
    if a != "" {
      if b[0] == c[0] && Subsequence(b[1..], c[1..]) {
        if a[0] == b[0] && Subsequence(a[1..], b[1..]) {
          SubsequenceTransitive(a[1..], b[1..], c[1..]);
        } else {
          SubsequenceTransitive(a, b[1..], c[1..]);
        }
      } else {
        SubsequenceTransitive(a, b, c[1..]);
      }
    }
  }

  lemma {:induction false} SubsequenceLater(a: string, s: string, i: nat, j: nat)
    requires i <= j <= |s| && Subsequence(a, s[j..])
    ensures Subsequence(a, s[i..])
    decreases j - i
  {
    if i < j {
      SubsequenceLater(a, s, i + 1, j);
      assert s[i..][1..] == s[i + 1..];
    }
  }

  /** Stripping keeps order, removes every ESC and CR, and deletes nothing else from clean text. */
  lemma {:induction false} StripFacts(s: string, i: nat)
    requires i <= |s|
    ensures Clean(Strip(s, i)) && Subsequence(Strip(s, i), s[i..])
    ensures Clean(s[i..]) ==> Strip(s, i) == s[i..]
    decreases |s| - i
  {
    if i < |s| {
      assert s[i..][0] == s[i] && s[i..][1..] == s[i + 1..];
      if s[i] == ESC {
        var j := AfterEscape(s, i);
        if j <= |s| {
          StripFacts(s, j);
          SubsequenceLater(Strip(s, j), s, i, j);
        }
      } else {
        StripFacts(s, i + 1);
      }
    }
  }

  lemma {:induction false} TrimLeftFacts(s: string) returns (i: nat)
    ensures i <= |s| && TrimLeft(s) == s[i..] && (i < |s| ==> !IsSpace(s[i]))
  {
    if s != "" && IsSpace(s[0]) {
      i := TrimLeftFacts(s[1..]);
      assert s[1..][i..] == s[i + 1..];
      i := i + 1;
    } else {
      i := 0;
    }
  }

  lemma {:induction false} TrimRightFacts(s: string) returns (j: nat)
    ensures j <= |s| && TrimRight(s) == s[..j] && (j > 0 ==> !IsSpace(s[j - 1]))
  {
    if s != "" && IsSpace(s[|s| - 1]) {
      j := TrimRightFacts(s[..|s| - 1]);
      assert s[..|s| - 1][..j] == s[..j];
    } else {
      j := |s|;
    }
  }

  lemma TrimFixed(s: string)
    requires Trimmed(s)
    ensures TrimRight(TrimLeft(s)) == s
  {
  }

  lemma DropTake(s: string, i: nat, j: nat)
    requires i <= |s| && j <= |s| - i
    ensures s[i..][..j] == s[i..i + j] && (j > 0 ==> s[i..][j - 1] == s[i + j - 1])
  {
  }

  /** Trimming takes a slice that neither begins nor ends with white space. */
  lemma TrimSlice(s: string) returns (i: nat, k: nat)
    ensures i <= k <= |s| && TrimRight(TrimLeft(s)) == s[i..k] && Trimmed(s[i..k])
  {
    i := TrimLeftFacts(s);
    var j := TrimRightFacts(s[i..]);
    DropTake(s, i, j);
    k := i + j;
  }

  lemma CleanSlice(s: string, i: nat, k: nat)
    requires i <= k <= |s| && Clean(s)
    ensures Clean(s[i..k])
  {
    forall n | i <= n < k ensures s[n] != ESC && s[n] != CR {
      assert s[n] in s;
    }
  }

  /** Sanitizing is a projection: the result is a trimmed subsequence of the input without ESC or CR, and
      sanitizing it again changes nothing. */
  lemma SanitizeProjects(s: string)
    ensures Clean(Sanitized(s)) && Trimmed(Sanitized(s)) && Subsequence(Sanitized(s), s)
    ensures Sanitized(Sanitized(s)) == Sanitized(s)
  {
    var r := Sanitized(s);
    StripFacts(s, 0);
    assert s[0..] == s;
    var i, k := TrimSlice(Strip(s, 0));
    CleanSlice(Strip(s, 0), i, k);
    SubsequenceOfSlice(Strip(s, 0), i, k);
    SubsequenceTransitive(r, Strip(s, 0), s);
    StripFacts(r, 0);
    assert r[0..] == r;
    TrimFixed(r);
  }

  // Scanning depends only on what is still ahead.

  lemma {:induction false} SkipShift(p: string, s: string, i: nat)
    requires i <= |s|
    ensures SkipParameters(p + s, |p| + i) == |p| + SkipParameters(s, i)
    decreases |s| - i
  {
    if i < |s| && IsParameter(s[i]) {
      SkipShift(p, s, i + 1);
    }
  }

  lemma {:induction false} StripShift(p: string, s: string, i: nat)
    ensures Strip(p + s, |p| + i) == Strip(s, i)
    decreases |s| - i
  {
    if i < |s| {
      assert (p + s)[|p| + i] == s[i];
      if s[i] == ESC {
        if i + 1 < |s| && s[i + 1] == '[' {
          SkipShift(p, s, i + 2);
        }
        assert AfterEscape(p + s, |p| + i) == |p| + AfterEscape(s, i);
        StripShift(p, s, AfterEscape(s, i));
      } else {
        StripShift(p, s, i + 1);
      }
    }
  }

  /** Clean text in front is kept. */
  lemma {:induction false} StripClean(a: string, s: string)
    requires Clean(a)
    ensures Strip(a + s, 0) == a + Strip(s, 0)
  {
    if a == "" {
      assert a + s == s;
    } else {
      assert a + s == [a[0]] + (a[1..] + s);
      StripShift([a[0]], a[1..] + s, 0);
      StripClean(a[1..], s);
    }
  }

  lemma {:induction false} SkipAll(s: string, i: nat, n: nat)
    requires i <= n < |s| && !IsParameter(s[n]) && forall k | i <= k < n :: IsParameter(s[k])
    ensures SkipParameters(s, i) == n
    decreases n - i
  {
    if i < n {
      SkipAll(s, i + 1, n);
    }
  }

  /** The characters a control sequence may have before its final one. */
  const PARAMETERS: string := "0123456789;? "

  lemma ParameterCharacters(c: char)
    ensures IsParameter(c) <==> c in PARAMETERS
  {
    if IsParameter(c) && '0' <= c <= '9' {
      assert PARAMETERS[c as int - '0' as int] == c;
    }
    assert PARAMETERS[10] == ';' && PARAMETERS[11] == '?' && PARAMETERS[12] == ' ';
  }

  /** Clean text in front of an escape sequence is kept, and what is left of it depends on the rest alone. */
  lemma HeadErased(before: string, head: string, rest: string)
    requires Clean(before) && head != "" && head[0] == ESC && AfterEscape(head + rest, 0) == |head|
    ensures Strip(before + (head + rest), 0) == before + Strip(rest, 0)
  {
    StripClean(before, head + rest);
    StripShift(head, rest, 0);
  }

  /** A control sequence (ESC, '[', parameters, a final byte) vanishes and its neighbours stay: exactly it is
      deleted, whatever follows. */
  lemma ControlSequenceErased(before: string, parameters: string, final: char, rest: string)
    requires Clean(before) && final !in PARAMETERS && forall k | 0 <= k < |parameters| :: parameters[k] in PARAMETERS
    ensures Strip(before + ([ESC, '['] + parameters + [final] + rest), 0) == before + Strip(rest, 0)
  {
    var head := [ESC, '['] + parameters + [final];
    var s := head + rest;
    assert s[0] == ESC && s[1] == '[';
    ParameterCharacters(final);
    forall k | 2 <= k < |parameters| + 2 ensures IsParameter(s[k]) {
      assert s[k] == parameters[k - 2];
      ParameterCharacters(s[k]);
    }
    SkipAll(s, 2, |parameters| + 2);
    HeadErased(before, head, rest);
  }

  /** ESC, 'O' and one more character vanish together. */
  lemma KeySequenceErased(before: string, key: char, rest: string)
    requires Clean(before)
    ensures Strip(before + ([ESC, 'O', key] + rest), 0) == before + Strip(rest, 0)
  {
    var s := [ESC, 'O', key] + rest;
    assert s[1] == 'O';
    HeadErased(before, [ESC, 'O', key], rest);
  }

  /** Any other ESC vanishes alone, and so does a carriage return. */
  lemma LoneControlErased(before: string, rest: string)
    requires Clean(before)
    ensures rest == "" || (rest[0] != '[' && rest[0] != 'O') ==> Strip(before + ([ESC] + rest), 0) == before + Strip(rest, 0)
    ensures Strip(before + ([CR] + rest), 0) == before + Strip(rest, 0)
  {
    if rest == "" || (rest[0] != '[' && rest[0] != 'O') {
      assert rest != "" ==> ([ESC] + rest)[1] == rest[0];
      HeadErased(before, [ESC], rest);
    }
    StripClean(before, [CR] + rest);
    StripShift([CR], rest, 0);
  }

  lemma {:induction false} SkipToEnd(s: string, i: nat)
    requires i <= |s| && forall k | i <= k < |s| :: IsParameter(s[k])
    ensures SkipParameters(s, i) == |s|
    decreases |s| - i
  {
    if i < |s| {
      SkipToEnd(s, i + 1);
    }
  }

  /** A sequence that the input cuts short vanishes up to the end. */
  lemma CutSequenceErased(before: string, parameters: string)
    requires Clean(before) && forall k | 0 <= k < |parameters| :: parameters[k] in PARAMETERS
    ensures Strip(before + ([ESC, '['] + parameters), 0) == before
    ensures Strip(before + [ESC, 'O'], 0) == before
  {
    var s := [ESC, '['] + parameters;
    assert s[1] == '[';
    forall k | 2 <= k < |s| ensures IsParameter(s[k]) {
      ParameterCharacters(parameters[k - 2]);
    }
    SkipToEnd(s, 2);
    assert s + "" == s;
    HeadErased(before, s, "");
    StripClean(before, [ESC, 'O']);
  }
}
