/** Python's `str.strip` and slicing, as the services use them. */
module Text {
  import opened Basics

  /** The characters `str.strip()` removes. */
  predicate IsSpace(c: char)
  {
    var n := c as int;
    || 0x09 <= n <= 0x0D || 0x1C <= n <= 0x20 || n == 0x85 || n == 0xA0 || n == 0x1680
    || 0x2000 <= n <= 0x200A || n == 0x2028 || n == 0x2029 || n == 0x202F || n == 0x205F || n == 0x3000
  }

  function StripLeft(s: string): string
  {
    if s != [] && IsSpace(s[0]) then StripLeft(s[1..]) else s
  }

  function StripRight(s: string): string
  {
    if s != [] && IsSpace(s[|s| - 1]) then StripRight(s[..|s| - 1]) else s
  }

  function Strip(s: string): string
  {
    StripRight(StripLeft(s))
  }

  predicate IsBlank(s: string)
  {
    forall i :: 0 <= i < |s| ==> IsSpace(s[i])
  }

  /** `s[:n]`, which counts from the end for a negative `n`. */
  function Truncate(s: string, n: int): string
  {
    if n >= 0 then s[..Min(n, |s|)] else s[..Max(0, |s| + n)]
  }

  predicate Trimmed(s: string)
  {
    s != [] ==> !IsSpace(s[0]) && !IsSpace(s[|s| - 1])
  }

  lemma {:induction false} StripLeftResult(s: string)
    ensures StripLeft(s) != [] ==> !IsSpace(StripLeft(s)[0])
    ensures |StripLeft(s)| <= |s| && StripLeft(s) == s[|s| - |StripLeft(s)|..]
    ensures StripLeft(s) == [] <==> IsBlank(s)
  {
    if s != [] && IsSpace(s[0]) {
      StripLeftResult(s[1..]);
      assert IsBlank(s) <==> IsBlank(s[1..]) by {
        assert forall i :: 0 <= i < |s[1..]| ==> s[1..][i] == s[i + 1];
        assert forall i :: 1 <= i < |s| ==> s[i] == s[1..][i - 1];
      }
    }
  }

  lemma {:induction false} StripRightResult(s: string)
    requires s != [] ==> !IsSpace(s[0])
    ensures |StripRight(s)| <= |s| && StripRight(s) == s[..|StripRight(s)|]
    ensures Trimmed(StripRight(s))
    ensures StripRight(s) == [] <==> s == []
  {
    if s != [] && IsSpace(s[|s| - 1]) {
      StripRightResult(s[..|s| - 1]);
    }
  }

  /** Stripping removes exactly what surrounds the text, everything if it is blank, and once is enough. */
  lemma StripResult(s: string)
    ensures Trimmed(Strip(s)) && |Strip(s)| <= |s|
    ensures Strip(s) == [] <==> IsBlank(s)
    ensures Strip(Strip(s)) == Strip(s)
  {
    StripLeftResult(s);
    StripRightResult(StripLeft(s));
  }

  lemma {:induction false} StripLeftSplits(s: string) returns (left: string)
    ensures IsBlank(left) && s == left + StripLeft(s)
  {
    left := [];
    if s != [] && IsSpace(s[0]) {
      var rest := StripLeftSplits(s[1..]);
      left := [s[0]] + rest;
      assert s == [s[0]] + s[1..];
    }
  }

  lemma {:induction false} StripRightSplits(s: string) returns (right: string)
    ensures IsBlank(right) && s == StripRight(s) + right
  {
    right := [];
    if s != [] && IsSpace(s[|s| - 1]) {
      var rest := StripRightSplits(s[..|s| - 1]);
      right := rest + [s[|s| - 1]];
      assert s == s[..|s| - 1] + [s[|s| - 1]];
    }
  }

  /** A text is blanks, then what stripping leaves of it, then blanks again. */
  lemma StripSplits(s: string) returns (left: string, right: string)
    ensures IsBlank(left) && IsBlank(right) && s == left + Strip(s) + right
  {
    left := StripLeftSplits(s);
    right := StripRightSplits(StripLeft(s));
    assert left + (Strip(s) + right) == left + Strip(s) + right;
  }

  /** Cutting keeps the beginning: `n` characters if there are as many, or all but the last `-n`. */
  lemma TruncateIsPrefix(s: string, n: int)
    ensures Truncate(s, n) <= s
    ensures |Truncate(s, n)| == if n >= |s| then |s| else if n >= 0 then n else Max(0, |s| + n)
  {
  }
}
