/**
 * Character classes and small string operations shared by the issue parser and
 * the message builders.  Python's `re` works on Unicode, with Unicode `\s` and
 * Unicode case folding; this model uses the ASCII subset of both.
 */
module Text {

  /**
   * `\s` of a Python `str` pattern, within ASCII: space, tab, newline,
   * carriage return, vertical tab, form feed, and the four separators
   * 0x1C-0x1F.
   */
  predicate IsSpace(c: char)
  {
    c == ' ' || c == '\t' || c == '\n' || c == '\r' || c == '\U{B}' || c == '\U{C}' || '\U{1C}' <= c <= '\U{1F}'
  }

  /** ASCII lower-casing, the only case folding the model has. */
  function Lower(c: char): (r: char)
    ensures 'A' <= c <= 'Z' ==> 'a' <= r <= 'z' && r as int == c as int + 32
    ensures !('A' <= c <= 'Z') ==> r == c
  {
    if 'A' <= c <= 'Z' then (c as int + 32) as char else c
  }

  /**
   * The literal `lit` (written in lower case) occurs in `s` at index `i`,
   * ignoring ASCII case: what a pattern such as `(?i)Name:` demands there.
   */
  predicate CiPrefixAt(s: string, i: nat, lit: string)
  {
    i + |lit| <= |s| && forall k :: 0 <= k < |lit| ==> Lower(s[i + k]) == lit[k]
  }

  /** Every character of `s[lo..hi]` is whitespace. */
  predicate AllSpace(s: string, lo: nat, hi: nat)
    requires lo <= hi <= |s|
  {
    forall k :: lo <= k < hi ==> IsSpace(s[k])
  }

  /** No character of `s[lo..hi]` is `c`. */
  predicate NoneIs(s: string, lo: nat, hi: nat, c: char)
    requires lo <= hi <= |s|
  {
    forall k :: lo <= k < hi ==> s[k] != c
  }

  /**
   * The end of the longest run of whitespace that starts at `i`: where a greedy
   * `\s*` stops.
   */
  function SpaceEnd(s: string, i: nat): (j: nat)
    requires i <= |s|
    ensures i <= j <= |s| && AllSpace(s, i, j)
    ensures j < |s| ==> !IsSpace(s[j])
    decreases |s| - i
  {
    if i < |s| && IsSpace(s[i]) then SpaceEnd(s, i + 1) else i
  }

  /** The maximal whitespace run is unique: any run that stops at a non-space is it. */
  lemma SpaceEndIs(s: string, i: nat, j: nat)
    requires i <= j <= |s| && AllSpace(s, i, j) && (j < |s| ==> !IsSpace(s[j]))
    ensures SpaceEnd(s, i) == j
  {
  }

  /** The first index at or after `i` that holds `c`, or `|s|` when there is none. */
  function NextIndexOf(s: string, i: nat, c: char): (q: nat)
    requires i <= |s|
    ensures i <= q <= |s| && NoneIs(s, i, q, c)
    ensures q < |s| ==> s[q] == c
    decreases |s| - i
  {
    if i == |s| || s[i] == c then i else NextIndexOf(s, i + 1, c)
  }

  /** The first occurrence is unique: any index before which `c` does not occur, holding `c`, is it. */
  lemma NextIndexOfIs(s: string, i: nat, c: char, q: nat)
    requires i <= q <= |s| && NoneIs(s, i, q, c) && (q < |s| ==> s[q] == c)
    ensures NextIndexOf(s, i, c) == q
  {
  }

  /** `s.replace(c, "")`: `s` with every occurrence of `c` removed. */
  function Without(s: string, c: char): (r: string)
    ensures |r| <= |s|
    ensures forall x :: x in r <==> x in s && x != c
  {
    if s == [] then []
    else if s[0] == c then Without(s[1..], c)
    else [s[0]] + Without(s[1..], c)
  }

  /** Removing `c` works piece by piece. */
  lemma {:induction false} WithoutConcat(a: string, b: string, c: char)
    ensures Without(a + b, c) == Without(a, c) + Without(b, c)
  {
    if a != [] {
      assert (a + b)[0] == a[0];
      assert (a + b)[1..] == a[1..] + b;
      WithoutConcat(a[1..], b, c);
    } else {
      assert a + b == b;
    }
  }

  /** A string without `c` is left as it is, so removing twice removes nothing more. */
  lemma {:induction false} WithoutNothing(s: string, c: char)
    requires c !in s
    ensures Without(s, c) == s
  {
    if s != [] {
      assert s[0] in s;
      assert forall x :: x in s[1..] ==> x in s;
      WithoutNothing(s[1..], c);
    }
  }

  lemma WithoutIdempotent(s: string, c: char)
    ensures Without(Without(s, c), c) == Without(s, c)
  {
    WithoutNothing(Without(s, c), c);
  }
}
