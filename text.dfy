/** Whitespace trimming as Python's `str.strip()` and JavaScript's `String.prototype.trim()` do it. */
module Text {

  /** The ASCII whitespace characters both languages strip. */
  predicate IsSpace(c: char)
  {
    c == ' ' || c == '\t' || c == '\n' || c == '\r' || c == '\U{0B}' || c == '\U{0C}'
  }

  predicate IsBlank(s: string)
  {
    forall i :: 0 <= i < |s| ==> IsSpace(s[i])
  }

  /** A leading space followed by a blank stretch makes a blank prefix. */
  lemma BlankPrefix(s: string, k: nat)
    requires 1 <= k <= |s| && IsSpace(s[0]) && IsBlank(s[1..][..k - 1])
    ensures IsBlank(s[..k])
  {
    forall i | 0 <= i < k
      ensures IsSpace(s[..k][i])
    {
      if i > 0 {
        assert s[..k][i] == s[1..][..k - 1][i - 1];
      }
    }
  }

  /** A blank stretch followed by a trailing space makes a blank suffix. */
  lemma BlankSuffix(s: string, j: nat)
    requires j < |s| && IsSpace(s[|s| - 1]) && IsBlank(s[..|s| - 1][j..])
    ensures IsBlank(s[j..])
  {
    forall i | 0 <= i < |s| - j
      ensures IsSpace(s[j..][i])
    {
      if i < |s| - 1 - j {
        assert s[j..][i] == s[..|s| - 1][j..][i];
      }
    }
  }

  /** `s` without its leading whitespace: a suffix of `s` that does not start with a space. */
  function TrimStart(s: string): (r: string)
    ensures |r| <= |s| && r == s[|s| - |r|..]
    ensures r == [] || !IsSpace(r[0])
  {
    if s == [] || !IsSpace(s[0]) then s
    else
      var r := TrimStart(s[1..]);
      assert s[1..][|s| - 1 - |r|..] == s[|s| - |r|..];
      r
  }

  /** What `TrimStart` removes is blank. */
  lemma {:induction false} TrimStartDropsBlank(s: string)
    ensures IsBlank(s[..|s| - |TrimStart(s)|])
  {
    if s != [] && IsSpace(s[0]) {
      TrimStartDropsBlank(s[1..]);
      BlankPrefix(s, |s| - |TrimStart(s)|);
    }
  }

  /** `s` without its trailing whitespace: a prefix of `s` that does not end with a space. */
  function TrimEnd(s: string): (r: string)
    ensures |r| <= |s| && r == s[..|r|]
    ensures r == [] || !IsSpace(r[|r| - 1])
  {
    if s == [] || !IsSpace(s[|s| - 1]) then s
    else
      var r := TrimEnd(s[..|s| - 1]);
      assert s[..|s| - 1][..|r|] == s[..|r|];
      r
  }

  /** What `TrimEnd` removes is blank. */
  lemma {:induction false} TrimEndDropsBlank(s: string)
    ensures IsBlank(s[|TrimEnd(s)|..])
  {
    if s != [] && IsSpace(s[|s| - 1]) {
      TrimEndDropsBlank(s[..|s| - 1]);
      BlankSuffix(s, |TrimEnd(s)|);
    }
  }

  /** `s.strip()` / `s.trim()`: a contiguous slice of `s` with whitespace removed from both ends. */
  function Trim(s: string): (r: string)
  {
    TrimEnd(TrimStart(s))
  }

  /** Trimming leaves nothing exactly when the input is blank. */
  lemma TrimEmptyIffBlank(s: string)
    ensures Trim(s) == [] <==> IsBlank(s)
  {
    var t := TrimStart(s);
    TrimStartDropsBlank(s);
    TrimEndDropsBlank(t);
    if TrimEnd(t) == [] {
      assert t[0..] == t;
      assert s[..|s| - |t|] + t == s;
    }
  }

  /** Trimming removes a blank prefix and a blank suffix and keeps what lies between. */
  lemma TrimIsSlice(s: string)
    ensures exists i, j :: 0 <= i <= j <= |s| && Trim(s) == s[i..j] && IsBlank(s[..i]) && IsBlank(s[j..])
  {
    var t := TrimStart(s);
    TrimStartDropsBlank(s);
    TrimEndDropsBlank(t);
    var i := |s| - |t|;
    var j := i + |Trim(s)|;
    assert s[j..] == t[|Trim(s)|..];
    assert Trim(s) == s[i..j];
  }

  /** What is kept starts and ends with a non-space, and the result is empty exactly for blank input. */
  lemma TrimProperties(s: string)
    ensures Trim(s) == [] <==> IsBlank(s)
    ensures Trim(s) != [] ==> !IsSpace(Trim(s)[0]) && !IsSpace(Trim(s)[|Trim(s)| - 1])
  {
    TrimEmptyIffBlank(s);
    if Trim(s) != [] {
      assert Trim(s)[0] == TrimStart(s)[0];
    }
  }

  /** Trimmed text that is not empty is not blank: `.strip()` of the page's trimmed title is the title again. */
  lemma TrimmedNotBlank(s: string)
    requires Trim(s) != []
    ensures !IsBlank(Trim(s))
  {
    TrimProperties(s);
  }
}
