/** String.prototype.trim as ECMA-262 (2024) section 22.1.3.32 defines it:
    strip every leading and trailing code point that is WhiteSpace
    (section 12.2) or LineTerminator (section 12.3). */
module JsString {

  /** Unicode general category Zs ("USP" in section 12.2). */
  predicate IsSpaceSeparator(c: char) {
    c == ' ' || c == '\U{00A0}' || c == '\U{1680}' || ('\U{2000}' <= c <= '\U{200A}')
    || c == '\U{202F}' || c == '\U{205F}' || c == '\U{3000}'
  }

  /** WhiteSpace, section 12.2: TAB, VT, FF, ZWNBSP and USP. */
  predicate IsWhiteSpace(c: char) {
    c == '\t' || c == '\U{000B}' || c == '\U{000C}' || c == '\U{FEFF}' || IsSpaceSeparator(c)
  }

  /** LineTerminator, section 12.3: LF, CR, LS and PS. */
  predicate IsLineTerminator(c: char) {
    c == '\n' || c == '\r' || c == '\U{2028}' || c == '\U{2029}'
  }

  /** What trim removes: the union of WhiteSpace and LineTerminator. */
  predicate IsTrimmable(c: char) {
    IsWhiteSpace(c) || IsLineTerminator(c)
  }

  predicate AllTrimmable(s: string) {
    forall k :: 0 <= k < |s| ==> IsTrimmable(s[k])
  }

  /** s[i..j] is what is left of s once its trimmable ends are cut off:
      everything before i and from j on is trimmable, and a non-empty
      remainder starts and ends with a character that is not. */
  ghost predicate TrimSplit(s: string, i: int, j: int) {
    0 <= i <= j <= |s|
    && (forall k :: 0 <= k < i ==> IsTrimmable(s[k]))
    && (forall k :: j <= k < |s| ==> IsTrimmable(s[k]))
    && (i < j ==> !IsTrimmable(s[i]) && !IsTrimmable(s[j - 1]))
  }

  /** Length of the longest trimmable prefix of s. */
  function LeadingCount(s: string): (n: nat)
    ensures n <= |s|
    ensures forall k :: 0 <= k < n ==> IsTrimmable(s[k])
    ensures n < |s| ==> !IsTrimmable(s[n])
  {
    if s == [] || !IsTrimmable(s[0]) then 0 else 1 + LeadingCount(s[1..])
  }

  /** Length of the longest trimmable suffix of s. */
  function TrailingCount(s: string): (n: nat)
    ensures n <= |s|
    ensures forall k :: |s| - n <= k < |s| ==> IsTrimmable(s[k])
    ensures n < |s| ==> !IsTrimmable(s[|s| - 1 - n])
  {
    if s == [] || !IsTrimmable(s[|s| - 1]) then 0 else 1 + TrailingCount(s[..|s| - 1])
  }

  /** String.prototype.trim. */
  function Trim(s: string): (r: string)
    ensures r == [] <==> AllTrimmable(s)
    ensures |r| <= |s|
    ensures exists i, j :: TrimSplit(s, i, j) && r == s[i..j]
  {
    var i := LeadingCount(s);
    if i == |s| then
      assert TrimSplit(s, i, i);
      []
    else
      var j := |s| - TrailingCount(s);
      assert TrimSplit(s, i, j);
      s[i..j]
  }

  /** The cut Trim makes is the only one: whatever satisfies TrimSplit is Trim's result. */
  lemma {:induction false} TrimUnique(s: string, i: int, j: int)
    requires TrimSplit(s, i, j)
    ensures Trim(s) == s[i..j]
  {
    if i == j {
      assert AllTrimmable(s) by {
        forall k | 0 <= k < |s| ensures IsTrimmable(s[k]) {
          if k >= i { assert j <= k; }
        }
      }
    } else {
      assert !IsTrimmable(s[i]) && !IsTrimmable(s[j - 1]);
    }
  }

  /** Trimming twice is trimming once. */
  lemma {:induction false} TrimIdempotent(s: string)
    ensures Trim(Trim(s)) == Trim(s)
  {
    var r := Trim(s);
    assert TrimSplit(r, 0, |r|);
    TrimUnique(r, 0, |r|);
  }

  /** A string whose two ends are not trimmable is left as it is. */
  lemma {:induction false} TrimKeepsTrimmedString(s: string)
    requires s != [] && !IsTrimmable(s[0]) && !IsTrimmable(s[|s| - 1])
    ensures Trim(s) == s
  {
    assert TrimSplit(s, 0, |s|);
    TrimUnique(s, 0, |s|);
  }
}
