/**
 * `parse_issue_body`: three case-insensitive, unanchored regular-expression
 * searches over the issue text,
 *
 *   Name:\s*([^\n]+)
 *   Version\s*(latest)?:\s*"([^"]+)"      (the version is group 2)
 *   url:\s*"([^"]+)"
 *
 * each modelled by a hand-written matcher.  For every pattern a ghost "split"
 * predicate says declaratively which index choices make the pattern match at
 * position i with its captured group at s[lo..hi]; the executable matcher
 * `MatchAt` is proved to report the group Python's backtracking engine picks,
 * and `Search` the leftmost position, as `re.search` does.
 */
module IssueParser {
  import opened Wrappers
  import opened Text

  /** The three patterns of the parser. */
  datatype Pattern = NameField | VersionField | UrlField

  /** A match found by a search: it starts at `at`, its group is `s[lo..hi]`. */
  datatype Capture = Capture(at: nat, lo: nat, hi: nat)

  /** The package update an issue asks for. */
  datatype Request = Request(name: string, version: string, url: string)

  // ----- Name:\s*([^\n]+) ---------------------------------------------------

  /** `Name:` at i, `\s*` over s[i+5..lo], `[^\n]+` over s[lo..hi]. */
  ghost predicate NameSplit(s: string, i: nat, lo: nat, hi: nat)
  {
    CiPrefixAt(s, i, "name:") && i + 5 <= lo < hi <= |s|
    && AllSpace(s, i + 5, lo) && NoneIs(s, lo, hi, '\n')
  }

  /**
   * The split the backtracking engine settles on: the greedy `\s*` keeps as
   * much as it can, then the greedy `[^\n]+` does.
   */
  ghost predicate NamePreferred(s: string, i: nat, lo: nat, hi: nat)
  {
    NameSplit(s, i, lo, hi)
    && forall lo': nat, hi': nat :: NameSplit(s, i, lo', hi') ==> lo' < lo || (lo' == lo && hi' <= hi)
  }

  /** The largest e in [lo, hi) with s[e] != '\n'. */
  function LastNotNewline(s: string, lo: nat, hi: nat): (r: Option<nat>)
    requires lo <= hi <= |s|
    ensures r.Some? ==> lo <= r.value < hi && s[r.value] != '\n'
    ensures r.Some? ==> forall e :: r.value < e < hi ==> s[e] == '\n'
    ensures r.None? ==> forall e :: lo <= e < hi ==> s[e] == '\n'
    decreases hi - lo
  {
    if lo == hi then None
    else if s[hi - 1] != '\n' then Some(hi - 1)
    else LastNotNewline(s, lo, hi - 1)
  }

  /**
   * Matching the name pattern at i.  When the whitespace after `Name:` runs to
   * the end of the body, `\s*` gives back characters until `[^\n]+` can take
   * one that is not a newline.
   */
  function NameAt(s: string, i: nat): (r: Option<(nat, nat)>)
    ensures r.Some? ==> NamePreferred(s, i, r.value.0, r.value.1)
    ensures r.None? ==> forall lo: nat, hi: nat :: !NameSplit(s, i, lo, hi)
  {
    if !CiPrefixAt(s, i, "name:") then None
    else
      NameSplitsBounded(s, i);
      var j := SpaceEnd(s, i + 5);
      if j < |s| then
        var k := NextIndexOf(s, j, '\n');
        assert NameSplit(s, i, j, k);
        Some((j, k))
      else
        match LastNotNewline(s, i + 5, j)
        case None => None
        case Some(e) =>
          var k := NextIndexOf(s, e, '\n');
          assert NameSplit(s, i, e, k);
          Some((e, k))
  }

  /**
   * Every split of the name pattern at i begins its group inside the
   * whitespace run (or where it stops), at a character that is not a newline,
   * and ends it no later than the next newline.
   */
  lemma NameSplitsBounded(s: string, i: nat)
    requires CiPrefixAt(s, i, "name:")
    ensures forall lo: nat, hi: nat :: NameSplit(s, i, lo, hi) ==>
      lo <= SpaceEnd(s, i + 5) && s[lo] != '\n' && hi <= NextIndexOf(s, lo, '\n')
  {
    forall lo: nat, hi: nat | NameSplit(s, i, lo, hi)
      ensures lo <= SpaceEnd(s, i + 5) && s[lo] != '\n' && hi <= NextIndexOf(s, lo, '\n')
    {
    }
  }

  // ----- \s*"([^"]+)"  (the common tail of the version and url patterns) -----

  /** `\s*` over s[from..lo-1], a quote at lo-1, `[^"]+` over s[lo..hi], a quote at hi. */
  ghost predicate QuotedSplit(s: string, from: nat, lo: nat, hi: nat)
  {
    from < lo < hi < |s| && AllSpace(s, from, lo - 1) && s[lo - 1] == '"'
    && NoneIs(s, lo, hi, '"') && s[hi] == '"'
  }

  /** Matching `\s*"([^"]+)"` at `from`; there is at most one way to do it. */
  function QuotedAt(s: string, from: nat): (r: Option<(nat, nat)>)
    requires from <= |s|
    ensures r.Some? ==> QuotedSplit(s, from, r.value.0, r.value.1)
    ensures forall lo: nat, hi: nat :: QuotedSplit(s, from, lo, hi) ==> r == Some((lo, hi))
  {
    var j := SpaceEnd(s, from);
    if j < |s| && s[j] == '"' then
      var q := NextIndexOf(s, j + 1, '"');
      if j + 1 < q < |s| then Some((j + 1, q)) else None
    else None
  }

  // ----- Version\s*(latest)?:\s*"([^"]+)" -------------------------------------

  /** Where the colon must stand, after the optional `latest`. */
  function ColonIndex(j1: nat, latest: bool): nat
  {
    if latest then j1 + 6 else j1
  }

  predicate ColonAt(s: string, c: nat)
  {
    c < |s| && s[c] == ':'
  }

  /** `Version` at i, `\s*` up to j1, `latest` there if `latest`, then `:` and the quoted tail. */
  ghost predicate VersionSplit(s: string, i: nat, j1: nat, latest: bool, lo: nat, hi: nat)
  {
    CiPrefixAt(s, i, "version") && i + 7 <= j1 <= |s| && AllSpace(s, i + 7, j1)
    && (latest ==> CiPrefixAt(s, j1, "latest"))
    && ColonAt(s, ColonIndex(j1, latest))
    && QuotedSplit(s, ColonIndex(j1, latest) + 1, lo, hi)
  }

  /** Matching the version pattern at i; there is at most one way to do it. */
  function VersionAt(s: string, i: nat): (r: Option<(nat, nat)>)
    ensures r.Some? ==> exists j1: nat, latest: bool :: VersionSplit(s, i, j1, latest, r.value.0, r.value.1)
    ensures forall j1: nat, latest: bool, lo: nat, hi: nat :: VersionSplit(s, i, j1, latest, lo, hi) ==> r == Some((lo, hi))
  {
    if !CiPrefixAt(s, i, "version") then None
    else
      VersionSplitsForced(s, i);
      var j1 := SpaceEnd(s, i + 7);
      var latest := CiPrefixAt(s, j1, "latest") && ColonAt(s, j1 + 6);
      var c := ColonIndex(j1, latest);
      if !ColonAt(s, c) then None
      else
        match QuotedAt(s, c + 1)
        case None => None
        case Some((lo, hi)) =>
          assert VersionSplit(s, i, j1, latest, lo, hi);
          Some((lo, hi))
  }

  /**
   * Every split of the version pattern at i agrees on where the whitespace
   * stops and on whether `latest` is taken: neither a `:` nor an `l` is
   * whitespace, and `latest` cannot begin with `:`.
   */
  lemma VersionSplitsForced(s: string, i: nat)
    requires CiPrefixAt(s, i, "version")
    ensures forall j1: nat, latest: bool, lo: nat, hi: nat :: VersionSplit(s, i, j1, latest, lo, hi) ==>
      j1 == SpaceEnd(s, i + 7) && latest == (CiPrefixAt(s, j1, "latest") && ColonAt(s, j1 + 6))
  {
    forall j1: nat, latest: bool, lo: nat, hi: nat | VersionSplit(s, i, j1, latest, lo, hi)
      ensures j1 == SpaceEnd(s, i + 7) && latest == (CiPrefixAt(s, j1, "latest") && ColonAt(s, j1 + 6))
    {
      var j := SpaceEnd(s, i + 7);
      assert "latest"[0] == 'l';
      assert !IsSpace(s[j1]) by {
        if latest {
          assert Lower(s[j1 + 0]) == "latest"[0];
        }
      }
    }
  }

  // ----- url:\s*"([^"]+)" -------------------------------------------------------

  ghost predicate UrlSplit(s: string, i: nat, lo: nat, hi: nat)
  {
    CiPrefixAt(s, i, "url:") && QuotedSplit(s, i + 4, lo, hi)
  }

  function UrlAt(s: string, i: nat): (r: Option<(nat, nat)>)
    ensures r.Some? ==> UrlSplit(s, i, r.value.0, r.value.1)
    ensures forall lo: nat, hi: nat :: UrlSplit(s, i, lo, hi) ==> r == Some((lo, hi))
  {
    if !CiPrefixAt(s, i, "url:") then None else QuotedAt(s, i + 4)
  }

  // ----- The three patterns together ------------------------------------------

  /** Pattern p matches at position i of s (in some way). */
  ghost predicate MatchesAt(p: Pattern, s: string, i: nat)
  {
    match p
    case NameField => exists lo: nat, hi: nat :: NameSplit(s, i, lo, hi)
    case VersionField => exists j1: nat, latest: bool, lo: nat, hi: nat :: VersionSplit(s, i, j1, latest, lo, hi)
    case UrlField => exists lo: nat, hi: nat :: UrlSplit(s, i, lo, hi)
  }

  /**
   * For a match of p at i, Python reports the group s[lo..hi]: the preferred
   * split for the name pattern, the only one for the other two.
   */
  ghost predicate Reported(p: Pattern, s: string, i: nat, lo: nat, hi: nat)
  {
    match p
    case NameField => NamePreferred(s, i, lo, hi)
    case VersionField =>
      (exists j1: nat, latest: bool :: VersionSplit(s, i, j1, latest, lo, hi))
      && forall j1: nat, latest: bool, lo': nat, hi': nat ::
           VersionSplit(s, i, j1, latest, lo', hi') ==> lo' == lo && hi' == hi
    case UrlField =>
      UrlSplit(s, i, lo, hi)
      && forall lo': nat, hi': nat :: UrlSplit(s, i, lo', hi') ==> lo' == lo && hi' == hi
  }

  /** p is first found at i: it matches there and at no earlier position. */
  ghost predicate IsLeftmost(p: Pattern, s: string, i: nat)
  {
    MatchesAt(p, s, i) && forall q: nat :: q < i ==> !MatchesAt(p, s, q)
  }

  /** Trying pattern p at position i only, as the engine does at each step of a search. */
  function MatchAt(p: Pattern, s: string, i: nat): (r: Option<(nat, nat)>)
    ensures r.Some? <==> MatchesAt(p, s, i)
    ensures r.Some? ==> r.value.0 < r.value.1 <= |s| && Reported(p, s, i, r.value.0, r.value.1)
  {
    match p
    case NameField => NameAt(s, i)
    case VersionField => VersionAt(s, i)
    case UrlField => UrlAt(s, i)
  }

  /** A match needs its literal key, so none starts past the end of the text. */
  lemma NoMatchPastEnd(p: Pattern, s: string, i: nat)
    requires i > |s|
    ensures !MatchesAt(p, s, i)
  {
  }

  /** `re.search`: the leftmost position at or after `from` where p matches, with its group. */
  function Search(p: Pattern, s: string, from: nat): (m: Option<Capture>)
    requires from <= |s|
    ensures m.Some? ==> from <= m.value.at && m.value.lo < m.value.hi <= |s|
    ensures m.Some? ==> MatchesAt(p, s, m.value.at) && Reported(p, s, m.value.at, m.value.lo, m.value.hi)
    ensures m.Some? ==> forall q: nat :: from <= q < m.value.at ==> !MatchesAt(p, s, q)
    ensures m.None? ==> forall q: nat :: from <= q ==> !MatchesAt(p, s, q)
    decreases |s| - from
  {
    match MatchAt(p, s, from)
    case Some((lo, hi)) => Some(Capture(from, lo, hi))
    case None =>
      if from == |s| then
        assert forall q: nat :: q > |s| ==> !MatchesAt(p, s, q) by {
          forall q: nat | q > |s| { NoMatchPastEnd(p, s, q); }
        }
        None
      else Search(p, s, from + 1)
  }

  /** What becomes of a captured group: the name has its spaces removed (`replace(" ", "")`). */
  function Tidy(p: Pattern, group: string): (r: string)
    ensures p == NameField ==> ' ' !in r && forall c :: c != ' ' ==> (c in r <==> c in group)
    ensures p != NameField ==> r == group
  {
    if p == NameField then Without(group, ' ') else group
  }

  /** The field of a request that pattern p supplies. */
  function Field(p: Pattern, r: Request): string
  {
    match p
    case NameField => r.name
    case VersionField => r.version
    case UrlField => r.url
  }

  /**
   * `parse_issue_body`: the triple when all three patterns are found, and
   * `(None, None, None)` otherwise.
   */
  function ParseIssueBody(body: string): (r: Option<Request>)
    ensures r.Some? ==> ' ' !in r.value.name && '\n' !in r.value.name
    ensures r.Some? ==> r.value.version != [] && '"' !in r.value.version
    ensures r.Some? ==> r.value.url != [] && '"' !in r.value.url
  {
    var n := Search(NameField, body, 0);
    var v := Search(VersionField, body, 0);
    var u := Search(UrlField, body, 0);
    if n.Some? && v.Some? && u.Some? then
      GroupShape(NameField, body, n.value);
      GroupShape(VersionField, body, v.value);
      GroupShape(UrlField, body, u.value);
      Some(Request(Tidy(NameField, body[n.value.lo..n.value.hi]),
                   body[v.value.lo..v.value.hi],
                   body[u.value.lo..u.value.hi]))
    else None
  }

  /** All or nothing: a request exactly when each of the three patterns matches somewhere. */
  lemma ParseAllOrNothing(body: string)
    ensures ParseIssueBody(body).Some? <==>
      (exists i: nat :: MatchesAt(NameField, body, i))
      && (exists i: nat :: MatchesAt(VersionField, body, i))
      && (exists i: nat :: MatchesAt(UrlField, body, i))
  {
  }

  /** A reported name group holds no newline; a reported version or url group holds no quote. */
  lemma GroupShape(p: Pattern, s: string, c: Capture)
    requires c.lo < c.hi <= |s| && Reported(p, s, c.at, c.lo, c.hi)
    ensures p == NameField ==> '\n' !in s[c.lo..c.hi]
    ensures p != NameField ==> '"' !in s[c.lo..c.hi]
  {
    if p == VersionField {
      var j1: nat, latest: bool :| VersionSplit(s, c.at, j1, latest, c.lo, c.hi);
    }
  }

  /** Python reports one group per match position. */
  lemma ReportedUnique(p: Pattern, s: string, i: nat, lo: nat, hi: nat, lo': nat, hi': nat)
    requires Reported(p, s, i, lo, hi) && Reported(p, s, i, lo', hi')
    ensures lo == lo' && hi == hi'
  {
    if p == VersionField {
      var j1: nat, latest: bool :| VersionSplit(s, i, j1, latest, lo', hi');
    }
  }

  /**
   * Each field of a parsed request comes from the leftmost match of its
   * pattern, whatever occurs later in the body.
   */
  lemma ParseIsLeftmost(body: string, p: Pattern, i: nat, lo: nat, hi: nat)
    requires ParseIssueBody(body).Some?
    requires IsLeftmost(p, body, i) && Reported(p, body, i, lo, hi)
    ensures lo < hi <= |body|
    ensures Field(p, ParseIssueBody(body).value) == Tidy(p, body[lo..hi])
  {
    ParsedField(p, body);
    var c := Search(p, body, 0).value;
    assert c.at == i;
    ReportedUnique(p, body, i, lo, hi, c.lo, c.hi);
  }

  /** The literal each pattern begins with, in lower case. */
  function Key(p: Pattern): string
  {
    match p
    case NameField => "name:"
    case VersionField => "version"
    case UrlField => "url:"
  }

  /** Every match of p begins with its key. */
  lemma MatchStartsWithKey(p: Pattern, s: string, i: nat)
    requires MatchesAt(p, s, i)
    ensures CiPrefixAt(s, i, Key(p))
  {
  }

  /**
   * A search reports position i when the pattern matches there and nowhere
   * earlier, with the group the matcher gives at i.
   */
  lemma SearchFinds(p: Pattern, s: string, i: nat)
    requires i <= |s| && MatchAt(p, s, i).Some?
    requires forall q: nat :: q < i ==> !MatchesAt(p, s, q)
    ensures Search(p, s, 0) == Some(Capture(i, MatchAt(p, s, i).value.0, MatchAt(p, s, i).value.1))
  {
    var c := Search(p, s, 0).value;
    assert c.at == i;
    ReportedUnique(p, s, i, c.lo, c.hi, MatchAt(p, s, i).value.0, MatchAt(p, s, i).value.1);
  }

  /** Each field of a parsed request is its pattern's search result, tidied. */
  lemma ParsedField(p: Pattern, body: string)
    requires ParseIssueBody(body).Some?
    ensures Search(p, body, 0).Some?
    ensures Field(p, ParseIssueBody(body).value)
         == Tidy(p, body[Search(p, body, 0).value.lo..Search(p, body, 0).value.hi])
  {
  }
}
