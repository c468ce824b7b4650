/**
 * What `parse_issue_body` makes of issue bodies built from recognisable
 * lines: each field is found wherever its line stands, in whatever case its
 * key is written, and the quirks of the patterns show up as stated.
 */
module ParserProperties {
  import opened Wrappers
  import opened Text
  import opened IssueParser

  /** `lit` occurs nowhere in `s`, in any case. */
  ghost predicate KeyFree(s: string, lit: string)
  {
    forall q: nat :: !CiPrefixAt(s, q, lit)
  }

  /** Every character of `ws` is whitespace. */
  predicate Spaces(ws: string)
  {
    forall k :: 0 <= k < |ws| ==> IsSpace(ws[k])
  }

  /** No key begins again inside itself. */
  lemma KeyUnbordered(p: Pattern)
    ensures forall d :: 0 < d < |Key(p)| ==> Key(p)[d] != Key(p)[0]
  {
  }

  /** One character of a case-insensitive key occurrence. */
  lemma CiPrefixChar(s: string, i: nat, lit: string, k: nat)
    ensures CiPrefixAt(s, i, lit) && k < |lit| ==> Lower(s[i + k]) == lit[k]
  {
  }

  lemma CiPrefixOfSlice(s: string, i: nat, lit: string)
    requires i + |lit| <= |s| && CiPrefixAt(s[i..i + |lit|], 0, lit)
    ensures CiPrefixAt(s, i, lit)
  {
    forall k | 0 <= k < |lit| ensures Lower(s[i + k]) == lit[k] {
      assert s[i + k] == s[i..i + |lit|][0 + k];
    }
  }

  lemma AllSpaceOfSlice(s: string, lo: nat, hi: nat)
    requires lo <= hi <= |s| && Spaces(s[lo..hi])
    ensures AllSpace(s, lo, hi)
  {
    forall k | lo <= k < hi ensures IsSpace(s[k]) {
      assert s[k] == s[lo..hi][k - lo];
    }
  }

  lemma NoneIsOfSlice(s: string, lo: nat, hi: nat, c: char)
    requires lo <= hi <= |s| && c !in s[lo..hi]
    ensures NoneIs(s, lo, hi, c)
  {
    forall k | lo <= k < hi ensures s[k] != c {
      assert s[k] == s[lo..hi][k - lo];
    }
  }

  /**
   * When the text before a key is free of that key, the pattern cannot match
   * anywhere before it: a match starting earlier would have to overlap the key.
   */
  lemma NoEarlierMatch(p: Pattern, pre: string, rest: string)
    requires KeyFree(pre, Key(p)) && CiPrefixAt(rest, 0, Key(p))
    ensures forall q: nat :: q < |pre| ==> !MatchesAt(p, pre + rest, q)
  {
    var s := pre + rest;
    var key := Key(p);
    KeyUnbordered(p);
    forall q: nat | q < |pre|
      ensures !MatchesAt(p, s, q)
    {
      if MatchesAt(p, s, q) {
        MatchStartsWithKey(p, s, q);
        if q + |key| <= |pre| {
          assert CiPrefixAt(pre, q, key) by {
            forall k | 0 <= k < |key| ensures Lower(pre[q + k]) == key[k] {
              assert s[q + k] == pre[q + k];
            }
          }
        } else {
          CiPrefixChar(s, q, key, |pre| - q);
          assert false;
        }
      }
    }
  }

  /**
   * The name search on a body whose first `name:` (in any case) is at i,
   * with whitespace, newlines included, up to lo, a non-space there, and no
   * newline before hi, which ends the body or holds a newline: the group is
   * the rest of that line.
   */
  lemma NameFoundAt(s: string, i: nat, lo: nat, hi: nat)
    requires CiPrefixAt(s, i, "name:") && KeyFree(s[..i], "name:") && i + 5 <= lo < hi <= |s|
    requires AllSpace(s, i + 5, lo) && !IsSpace(s[lo])
    requires NoneIs(s, lo, hi, '\n') && (hi < |s| ==> s[hi] == '\n')
    ensures Search(NameField, s, 0) == Some(Capture(i, lo, hi))
  {
    SpaceEndIs(s, i + 5, lo);
    NextIndexOfIs(s, lo, '\n', hi);
    assert MatchAt(NameField, s, i) == Some((lo, hi));
    KeyOfSuffix(s, i, "name:");
    NoEarlierMatch(NameField, s[..i], s[i..]);
    SearchFinds(NameField, s, i);
  }

  /**
   * When everything after `name:` is spaces, the greedy `\s*` must give one
   * back so that `[^\n]+` has a character: the group is the last space, and
   * the name is empty once spaces are removed.
   */
  lemma NameOfSpacesOnly(s: string, i: nat)
    requires CiPrefixAt(s, i, "name:") && KeyFree(s[..i], "name:") && i + 5 < |s|
    requires forall k :: i + 5 <= k < |s| ==> s[k] == ' '
    ensures Search(NameField, s, 0) == Some(Capture(i, |s| - 1, |s|))
    ensures Tidy(NameField, s[|s| - 1..]) == ""
  {
    assert SpaceEnd(s, i + 5) == |s| by {
      SpaceEndIs(s, i + 5, |s|);
    }
    assert LastNotNewline(s, i + 5, |s|) == Some(|s| - 1);
    assert MatchAt(NameField, s, i) == Some((|s| - 1, |s|));
    KeyOfSuffix(s, i, "name:");
    NoEarlierMatch(NameField, s[..i], s[i..]);
    SearchFinds(NameField, s, i);
    assert s[|s| - 1..] == [' '];
  }

  /**
   * The version search on a body whose first `version` is at i: whitespace
   * up to j1, optionally `latest` in any case, the colon at c, whitespace,
   * then a non-empty quote-free value between quotes at lo - 1 and hi. The
   * group is the value alone, without `latest`.
   */
  lemma VersionFoundAt(s: string, i: nat, j1: nat, c: nat, lo: nat, hi: nat)
    requires CiPrefixAt(s, i, "version") && KeyFree(s[..i], "version")
    requires i + 7 <= j1 <= c && c + 2 <= lo < hi < |s|
    requires AllSpace(s, i + 7, j1)
    requires c == j1 || (c == j1 + 6 && CiPrefixAt(s, j1, "latest"))
    requires s[c] == ':' && AllSpace(s, c + 1, lo - 1) && s[lo - 1] == '"'
    requires NoneIs(s, lo, hi, '"') && s[hi] == '"'
    ensures Search(VersionField, s, 0) == Some(Capture(i, lo, hi))
  {
    assert VersionSplit(s, i, j1, c != j1, lo, hi) by {
      assert ColonIndex(j1, c != j1) == c;
      assert QuotedSplit(s, c + 1, lo, hi);
    }
    assert VersionAt(s, i) == Some((lo, hi));
    assert MatchAt(VersionField, s, i) == Some((lo, hi));
    KeyOfSuffix(s, i, "version");
    NoEarlierMatch(VersionField, s[..i], s[i..]);
    SearchFinds(VersionField, s, i);
  }

  /**
   * The url search on a body whose first `url:` is at i, followed by
   * whitespace and a non-empty quote-free value between quotes at lo - 1 and hi.
   */
  lemma UrlFoundAt(s: string, i: nat, lo: nat, hi: nat)
    requires CiPrefixAt(s, i, "url:") && KeyFree(s[..i], "url:")
    requires i + 5 <= lo < hi < |s| && AllSpace(s, i + 4, lo - 1) && s[lo - 1] == '"'
    requires NoneIs(s, lo, hi, '"') && s[hi] == '"'
    ensures Search(UrlField, s, 0) == Some(Capture(i, lo, hi))
  {
    assert UrlSplit(s, i, lo, hi);
    assert MatchAt(UrlField, s, i) == Some((lo, hi));
    KeyOfSuffix(s, i, "url:");
    NoEarlierMatch(UrlField, s[..i], s[i..]);
    SearchFinds(UrlField, s, i);
  }

  /** A key at i of s is a key at 0 of the suffix from i. */
  lemma KeyOfSuffix(s: string, i: nat, lit: string)
    requires CiPrefixAt(s, i, lit)
    ensures s == s[..i] + s[i..] && CiPrefixAt(s[i..], 0, lit)
  {
    assert s == s[..i] + s[i..];
    forall k | 0 <= k < |lit| ensures Lower(s[i..][k]) == lit[k] {
      CiPrefixChar(s, i, lit, k);
    }
  }

  /**
   * A quoted value written `""`: after the whitespace the first quote is
   * followed at once by the closing one, so `[^"]+` has nothing to take and
   * no split exists.
   */
  lemma EmptyQuotedFails(s: string, from: nat, q: nat)
    requires from <= q && q + 1 < |s| && AllSpace(s, from, q) && s[q] == '"' && s[q + 1] == '"'
    ensures forall lo: nat, hi: nat :: !QuotedSplit(s, from, lo, hi)
  {
    forall lo: nat, hi: nat
      ensures !QuotedSplit(s, from, lo, hi)
    {
      QuotedStartsAtFirstQuote(s, from, q, lo, hi);
    }
  }

  /** The opening quote of a quoted split is the first non-space after from. */
  lemma QuotedStartsAtFirstQuote(s: string, from: nat, q: nat, lo: nat, hi: nat)
    requires from <= q < |s| && AllSpace(s, from, q) && s[q] == '"'
    ensures QuotedSplit(s, from, lo, hi) ==> lo == q + 1
  {
  }

  /** `url: ""` does not match the url pattern at that position. */
  lemma EmptyUrlFails(s: string, i: nat, q: nat)
    requires CiPrefixAt(s, i, "url:") && i + 4 <= q && q + 1 < |s|
    requires AllSpace(s, i + 4, q) && s[q] == '"' && s[q + 1] == '"'
    ensures !MatchesAt(UrlField, s, i)
  {
    EmptyQuotedFails(s, i + 4, q);
  }

  /** A body without one of the keys, in any case, does not parse. */
  lemma MissingKeyFails(body: string, p: Pattern)
    requires KeyFree(body, Key(p))
    ensures ParseIssueBody(body) == None
  {
    ParseAllOrNothing(body);
    forall i: nat | MatchesAt(p, body, i)
      ensures false
    {
      MatchStartsWithKey(p, body, i);
    }
  }

  /** Nothing before n in `s` lowers to the first letter of `lit`, so `lit` is absent there. */
  lemma KeyFreeByFirst(s: string, n: nat, lit: string)
    requires n <= |s| && lit != [] && forall k :: 0 <= k < n ==> Lower(s[k]) != lit[0]
    ensures KeyFree(s[..n], lit)
  {
    forall q: nat ensures !CiPrefixAt(s[..n], q, lit) {
      CiPrefixChar(s[..n], q, lit, 0);
    }
  }

  /** Three successful searches make the request out of their groups. */
  lemma ParseOfSearches(s: string, n: Capture, v: Capture, u: Capture)
    requires Search(NameField, s, 0) == Some(n)
    requires Search(VersionField, s, 0) == Some(v)
    requires Search(UrlField, s, 0) == Some(u)
    ensures n.lo <= n.hi <= |s| && v.lo <= v.hi <= |s| && u.lo <= u.hi <= |s|
    ensures ParseIssueBody(s) == Some(Request(Without(s[n.lo..n.hi], ' '), s[v.lo..v.hi], s[u.lo..u.hi]))
  {
  }
}
