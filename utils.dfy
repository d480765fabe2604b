/**
  String helpers of the CardioID logging component (components/CardioIDLogging/utils.c).

  C strings are modelled as Dafny strings holding the characters before the
  terminating NUL; `CString` says that such a string has no NUL of its own.
 */
module Utils {

  /** A string that can be the contents of a NUL-terminated C string. */
  predicate CString(s: string) {
    forall i :: 0 <= i < |s| ==> s[i] != '\0'
  }

  /** A sequence of strings read back to back. */
  function Concat(parts: seq<string>): string {
    if parts == [] then [] else parts[0] + Concat(parts[1..])
  }

  /** The character C sees at index `i` of a NUL-terminated string: the NUL past the end. */
  function CharAt(s: string, i: nat): char {
    if i < |s| then s[i] else '\0'
  }

  /**
    C `strncmp`: compares at most `n` characters, stopping at the first
    difference or at the terminating NUL, and returns the difference of the
    first pair of characters that differ (0 when none differ).
   */
  function Strncmp(s1: string, s2: string, n: nat): (r: int)
    ensures n == 0 ==> r == 0
    decreases n
  {
    if n == 0 then 0
    else
      var c1, c2 := CharAt(s1, 0), CharAt(s2, 0);
      if c1 != c2 then (c1 as int) - (c2 as int)
      else if c1 == '\0' then 0
      else Strncmp(s1[1..], s2[1..], n - 1)
  }

  /** On two C strings of length at least `n`, strncmp reports 0 exactly when their first `n` characters agree. */
  lemma {:induction false} StrncmpZero(s1: string, s2: string, n: nat)
    requires CString(s1) && CString(s2)
    requires n <= |s1| && n <= |s2|
    ensures Strncmp(s1, s2, n) == 0 <==> s1[..n] == s2[..n]
    decreases n
  {
    if n > 0 {
      assert CharAt(s1, 0) == s1[0] && CharAt(s2, 0) == s2[0];
      if s1[0] == s2[0] {
        assert CString(s1[1..]) && CString(s2[1..]);
        StrncmpZero(s1[1..], s2[1..], n - 1);
        assert s1[..n] == [s1[0]] + s1[1..][..n - 1];
        assert s2[..n] == [s2[0]] + s2[1..][..n - 1];
      } else {
        assert s1[..n][0] != s2[..n][0];
      }
    }
  }

  /**
    ENDSWITH (utils.c): 1 when `str` ends with `suffix`, 0 otherwise. A suffix
    longer than the string is rejected before any comparison.
   */
  function EndsWith(str: string, suffix: string): (r: int)
    ensures r == 0 || r == 1
    ensures |suffix| > |str| ==> r == 0
  {
    var strLen, suffixLen := |str|, |suffix|;
    if suffixLen > strLen then 0
    else if Strncmp(str[strLen - suffixLen..], suffix, suffixLen) == 0 then 1
    else 0
  }

  /** ENDSWITH holds exactly when the last |suffix| characters of `str` are `suffix`. */
  lemma EndsWithIff(str: string, suffix: string)
    requires CString(str) && CString(suffix)
    ensures EndsWith(str, suffix) == 1 <==> |suffix| <= |str| && str[|str| - |suffix|..] == suffix
  {
    if |suffix| <= |str| {
      var tail := str[|str| - |suffix|..];
      assert CString(tail);
      StrncmpZero(tail, suffix, |suffix|);
      assert tail[..|suffix|] == tail && suffix[..|suffix|] == suffix;
    }
  }

  /** A true result implies the suffix is no longer than the string. */
  lemma EndsWithBound(str: string, suffix: string)
    ensures EndsWith(str, suffix) == 1 ==> |suffix| <= |str|
  {
  }

  /** The empty suffix matches every string: strncmp over zero characters is 0. */
  lemma EndsWithEmpty(str: string)
    ensures EndsWith(str, "") == 1
  {
  }

  /** Every C string ends with itself. */
  lemma EndsWithSelf(s: string)
    requires CString(s)
    ensures EndsWith(s, s) == 1
  {
    EndsWithIff(s, s);
  }

  /** Appending the suffix to any prefix gives a string that ends with it. */
  lemma EndsWithAppended(prefix: string, suffix: string)
    requires CString(prefix) && CString(suffix)
    ensures EndsWith(prefix + suffix, suffix) == 1
  {
    var s := prefix + suffix;
    assert CString(s) by {
      forall i | 0 <= i < |s| ensures s[i] != '\0' {
        if i < |prefix| { assert s[i] == prefix[i]; } else { assert s[i] == suffix[i - |prefix|]; }
      }
    }
    EndsWithIff(s, suffix);
    assert s[|s| - |suffix|..] == suffix;
  }

  /** Conversely, a string that ends with `suffix` is some prefix followed by it. */
  lemma EndsWithSplits(str: string, suffix: string)
    requires CString(str) && CString(suffix)
    requires EndsWith(str, suffix) == 1
    ensures str == str[..|str| - |suffix|] + suffix
  {
    EndsWithIff(str, suffix);
  }
}
