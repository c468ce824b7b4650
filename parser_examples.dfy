/**
 * Issue bodies worked through the parser: what `parse_issue_body` makes of
 * a few short texts that show its quirks.
 */
module ParserExamples {
  import opened Wrappers
  import opened Text
  import opened IssueParser
  import opened ParserProperties

  /** `Name:` is not anchored: the `name:` inside `Username:` is found. */
  lemma UsernameMatches()
    ensures Search(NameField, "Username: pkg", 0) == Some(Capture(4, 10, 13))
  {
    KeyFreeByFirst("Username: pkg", 4, "name:");
    NameFoundAt("Username: pkg", 4, 10, 13);
  }

  /** The `\s*` after `Name:` crosses a newline into the next line. */
  lemma NameOnNextLine()
    ensures Search(NameField, "Name:\n pkg", 0) == Some(Capture(0, 7, 10))
  {
    NameFoundAt("Name:\n pkg", 0, 7, 10);
  }

  /** A Windows line end leaves its carriage return in the name. */
  lemma NameKeepsCarriageReturn()
    ensures Search(NameField, "name: p\r\n", 0) == Some(Capture(0, 6, 8))
  {
    NameFoundAt("name: p\r\n", 0, 6, 8);
  }

  /** `Name:` followed only by spaces gives one space back, and an empty name. */
  lemma NameOfTrailingSpaces()
    ensures Search(NameField, "Name:  ", 0) == Some(Capture(0, 6, 7))
  {
    NameOfSpacesOnly("Name:  ", 0);
  }

  /** `latest`, in any case, may stand before the colon and is not part of the version. */
  lemma LatestAnyCase()
    ensures Search(VersionField, "VERSION Latest:\"1\"", 0) == Some(Capture(0, 16, 17))
  {
    VersionFoundAt("VERSION Latest:\"1\"", 0, 8, 14, 16, 17);
  }

  /** An empty quoted url matches nowhere. */
  lemma EmptyUrlNotFound()
    ensures Search(UrlField, "url: \"\"", 0) == None
  {
    EmptyUrlFails("url: \"\"", 0, 5);
  }

  /** A body without a version line parses to nothing, though name and url are there. */
  lemma MissingVersion()
    ensures ParseIssueBody("Name: a\nurl: \"u\"") == None
  {
    var s := "Name: a\nurl: \"u\"";
    KeyFreeByFirst(s, |s|, "version");
    assert s[..|s|] == s;
    MissingKeyFails(s, VersionField);
  }

  /** A complete body, keys in lower case and no spaces anywhere. */
  const Complete: string := "name:a\nversion:\"1\"\nurl:\"u\""

  lemma CompleteName()
    ensures Search(NameField, Complete, 0) == Some(Capture(0, 5, 6))
  {
    NameFoundAt(Complete, 0, 5, 6);
  }

  lemma CompleteHasNoEarlyVersion()
    ensures KeyFree(Complete[..7], "version")
  {
    KeyFreeByFirst(Complete, 7, "version");
  }

  lemma CompleteVersion()
    ensures Search(VersionField, Complete, 0) == Some(Capture(7, 16, 17))
  {
    CompleteHasNoEarlyVersion();
    VersionFoundAt(Complete, 7, 14, 14, 16, 17);
  }

  lemma CompleteUrl()
    ensures Search(UrlField, Complete, 0) == Some(Capture(19, 24, 25))
  {
    KeyFreeByFirst(Complete, 19, "url:");
    UrlFoundAt(Complete, 19, 24, 25);
  }

  lemma CompleteGroups()
    ensures Complete[5..6] == "a" && Complete[16..17] == "1" && Complete[24..25] == "u"
  {
  }

  lemma CompleteParses()
    ensures ParseIssueBody(Complete) == Some(Request("a", "1", "u"))
  {
    CompleteName();
    CompleteVersion();
    CompleteUrl();
    CompleteGroups();
    WithoutNothing("a", ' ');
    ParseOfSearches(Complete, Capture(0, 5, 6), Capture(7, 16, 17), Capture(19, 24, 25));
  }

  /** A body with capitalised keys, a space after each colon and a dotted version. */
  const Filled: string :=
    "Name:" + " " + "Foo" + "\n" + "Version" + ":" + " " + "\"" + "1.2.3" + "\"" + "\n"
    + "url:" + " " + "\"" + "https://example.com/foo" + "\""

  lemma FilledName()
    ensures Search(NameField, Filled, 0) == Some(Capture(0, 6, 9))
  {
    assert Filled[0..5] == "Name:" && Filled[5..6] == " " && Filled[6..9] == "Foo";
    CiPrefixOfSlice(Filled, 0, "name:");
    AllSpaceOfSlice(Filled, 5, 6);
    NoneIsOfSlice(Filled, 6, 9, '\n');
    NameFoundAt(Filled, 0, 6, 9);
  }

  lemma FilledHasNoEarlyVersion()
    ensures KeyFree(Filled[..10], "version")
  {
    KeyFreeByFirst(Filled, 10, "version");
  }

  lemma FilledVersion()
    ensures Search(VersionField, Filled, 0) == Some(Capture(10, 20, 25))
  {
    assert Filled[10..17] == "Version" && Filled[18..19] == " " && Filled[20..25] == "1.2.3";
    CiPrefixOfSlice(Filled, 10, "version");
    AllSpaceOfSlice(Filled, 18, 19);
    NoneIsOfSlice(Filled, 20, 25, '"');
    FilledHasNoEarlyVersion();
    VersionFoundAt(Filled, 10, 17, 17, 20, 25);
  }

  lemma FilledHasNoEarlyUrl()
    ensures KeyFree(Filled[..27], "url:")
  {
    KeyFreeByFirst(Filled, 27, "url:");
  }

  lemma FilledUrlUnquoted()
    ensures NoneIs(Filled, 33, 56, '"')
  {
    assert Filled[33..56] == "https://example.com/foo";
    NoneIsOfSlice(Filled, 33, 56, '"');
  }

  lemma FilledUrl()
    ensures Search(UrlField, Filled, 0) == Some(Capture(27, 33, 56))
  {
    assert Filled[27..31] == "url:" && Filled[31..32] == " ";
    CiPrefixOfSlice(Filled, 27, "url:");
    AllSpaceOfSlice(Filled, 31, 32);
    FilledUrlUnquoted();
    FilledHasNoEarlyUrl();
    UrlFoundAt(Filled, 27, 33, 56);
  }

  lemma FilledGroups()
    ensures Filled[6..9] == "Foo" && Filled[20..25] == "1.2.3" && Filled[33..56] == "https://example.com/foo"
  {
  }

  lemma FilledParses()
    ensures ParseIssueBody(Filled) == Some(Request("Foo", "1.2.3", "https://example.com/foo"))
  {
    FilledName();
    FilledVersion();
    FilledUrl();
    ParseOfSearches(Filled, Capture(0, 6, 9), Capture(10, 20, 25), Capture(27, 33, 56));
    FilledGroups();
    WithoutNothing("Foo", ' ');
  }
}
