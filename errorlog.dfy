/** The logging gate of src/bdd_errorlog.hxx: the compile-time substring
    search over NUL-terminated string literals, and the release-build rule
    that a format containing "%p" is never handed to DbgPrintEx. */
module ErrorLog {
  import opened Common

  /** A C string literal as stored: its characters, a NUL terminator, and
      possibly anything after it. */
  type Literal = s: string | '\0' in s witness "\0"

  /** strlen: the index of the first NUL. */
  function Length(s: Literal): (n: nat)
    ensures n < |s| && s[n] == '\0'
    ensures forall j | 0 <= j < n :: s[j] != '\0'
    decreases |s|
  {
    if s[0] == '\0' then 0
    else
      assert '\0' in s[1..] by {
        var k :| 0 <= k < |s| && s[k] == '\0';
        assert s[1..][k - 1] == '\0';
      }
      1 + Length(s[1..])
  }

  /** The characters of a literal before its terminator. */
  function Text(s: Literal): string {
    s[..Length(s)]
  }

  /** `needle` occurs in `text` starting at `k`. */
  predicate OccursAt(text: string, needle: string, k: nat) {
    k + |needle| <= |text| && text[k..k + |needle|] == needle
  }

  /** `needle` is a contiguous substring of `text`. */
  predicate Occurs(text: string, needle: string) {
    exists k: nat :: k <= |text| && OccursAt(text, needle, k)
  }

  /** The inner loop of BddStringLiteralContains: how many characters of
      the needle match the haystack from position `i` on, stopping at the
      first difference or at either terminator. */
  method MatchLength(haystack: Literal, needle: Literal, i: nat) returns (n: nat)
    requires i <= Length(haystack)
    ensures n <= Length(needle) && i + n <= Length(haystack)
    ensures haystack[i..i + n] == needle[..n]
    ensures n < Length(needle) && i + n < Length(haystack) ==> haystack[i + n] != needle[n]
  {
    var h := i;
    n := 0;
    while haystack[h] != '\0' && needle[n] != '\0' && haystack[h] == needle[n]
      invariant h == i + n && h <= Length(haystack) && n <= Length(needle)
      invariant haystack[i..h] == needle[..n]
      decreases Length(needle) - n
    {
      assert haystack[i..h + 1] == haystack[i..h] + [haystack[h]];
      assert needle[..n + 1] == needle[..n] + [needle[n]];
      h, n := h + 1, n + 1;
    }
  }

  /** A whole-needle match at `i` is an occurrence in the texts. */
  lemma MatchOccurs(haystack: Literal, needle: Literal, i: nat)
    requires i + Length(needle) <= Length(haystack)
    requires haystack[i..i + Length(needle)] == needle[..Length(needle)]
    ensures OccursAt(Text(haystack), Text(needle), i)
  {
    var n, l := Length(needle), Length(haystack);
    var text := haystack[..l];
    forall j | i <= j < i + n
      ensures text[j] == haystack[j]
    {
    }
    assert text[i..i + n] == haystack[i..i + n];
  }

  /** A match that stops short of the needle's end rules out an occurrence at `i`. */
  lemma MismatchNoOccurrence(haystack: Literal, needle: Literal, i: nat, n: nat)
    requires n < Length(needle) && i + n <= Length(haystack)
    requires i + n < Length(haystack) ==> haystack[i + n] != needle[n]
    ensures !OccursAt(Text(haystack), Text(needle), i)
  {
    var text, word := Text(haystack), Text(needle);
    if i + |word| <= |text| {
      assert text[i..i + |word|][n] == text[i + n] == haystack[i + n];
      assert word[n] == needle[n];
      assert text[i..i + |word|] != word;
    }
  }

  /** BddStringLiteralContains: whether the text of `needle` occurs in the
      text of `haystack`. An empty needle is found everywhere, nothing but
      the empty needle is found in an empty haystack, and a candidate that
      runs into the haystack's terminator before the needle's is no match. */
  method StringLiteralContains(haystack: Literal, needle: Literal) returns (found: bool)
    ensures found <==> Occurs(Text(haystack), Text(needle))
    ensures Length(needle) == 0 ==> found
    ensures Length(haystack) == 0 && Length(needle) > 0 ==> !found
  {
    ghost var text, word := Text(haystack), Text(needle);
    if needle[0] == '\0' {
      assert OccursAt(text, word, 0);
      return true;
    }
    var i := 0;
    while haystack[i] != '\0'
      invariant i <= Length(haystack)
      invariant forall k: nat | k < i :: !OccursAt(text, word, k)
      decreases Length(haystack) - i
    {
      var n := MatchLength(haystack, needle, i);
      if needle[n] == '\0' {
        MatchOccurs(haystack, needle, i);
        return true;
      }
      MismatchNoOccurrence(haystack, needle, i, n);
      i := i + 1;
    }
    forall k: nat | k <= |text|
      ensures !OccursAt(text, word, k)
    {
      if k >= i {
        assert k + |word| > |text|;
      }
    }
    return false;
  }

  /** The pointer-format test of the release gate agrees with a direct scan
      for a '%' followed by 'p'. */
  lemma PointerFormatScan(text: string)
    ensures Occurs(text, "%p") <==> exists k | 0 <= k < |text| - 1 :: text[k] == '%' && text[k + 1] == 'p'
  {
    if k :| 0 <= k < |text| - 1 && text[k] == '%' && text[k + 1] == 'p' {
      assert text[k..k + 2] == "%p";
      assert OccursAt(text, "%p", k);
    }
    if Occurs(text, "%p") {
      var k: nat :| k <= |text| && OccursAt(text, "%p", k);
      assert text[k..k + 2][0] == text[k] && text[k..k + 2][1] == text[k + 1];
    }
  }

  /** The DbgPrintEx level the message is emitted at. */
  datatype Level = ErrorLevel | WarningLevel | TraceLevel | InfoLevel

  /** A DbgPrintEx call of the IHV video component: the level and the
      format with its appended newline (the arguments are not modelled). */
  datatype DebugPrint = DebugPrint(level: Level, format: string)

  /** The pointer conversion a release build must not log. */
  const PointerFormat: Literal := "%p\0"

  /** BDD_LOG_SAFE: a checked build always prints; a release build prints
      the format only when it contains no "%p". */
  method LogSafe(checkedBuild: bool, level: Level, fmt: Literal) returns (emitted: Option<DebugPrint>)
    ensures emitted.Some? <==> checkedBuild || !Occurs(Text(fmt), "%p")
    ensures emitted.Some? ==> emitted.value == DebugPrint(level, Text(fmt) + "\n")
  {
    assert Text(PointerFormat) == "%p";
    if checkedBuild {
      emitted := Some(DebugPrint(level, Text(fmt) + "\n"));
    } else {
      var hasPointer := StringLiteralContains(fmt, PointerFormat);
      if !hasPointer {
        emitted := Some(DebugPrint(level, Text(fmt) + "\n"));
      } else {
        emitted := None;
      }
    }
  }
}
