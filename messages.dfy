/**
 * The strings the bot derives from a parsed request and from the outcome of
 * publishing it: issue comments, the branch, the commit message and pull
 * request, and the manifest paths.
 */
module Messages {
  import opened Wrappers
  import opened Text

  const RunningChecks: string := "Running checks..."
  const InvalidSyntaxMessage: string := ErrorPrefix + "Invalid syntax. Please correct it and make a new issue."
  const InvalidLabel: string := "invalid"
  /** The text of the `ValueError` raised when no pull request URL comes back. */
  const PullRequestFailure: string := "Failed to create pull request"
  const BaseBranch: string := "main"

  const ErrorPrefix: string := "Error! "
  const ErrorSuffix: string := " Please submit an issue in [packagedingus/error](https://github.com/packagedingus/packages/issues)."
  const SuccessPrefix: string := "Success! " + "The update has been submitted in a pull request: "

  /** The comment of `comment_bot_error`: the error text between a fixed prefix and a fixed suffix. */
  function BotErrorMessage(errorText: string): (m: string)
    ensures |m| == |ErrorPrefix| + |errorText| + |ErrorSuffix|
  {
    ErrorPrefix + errorText + ErrorSuffix
  }

  /** Reads the error text back out of a bot-error comment, if it is one. */
  function BotErrorText(m: string): (t: Option<string>)
  {
    if |ErrorPrefix| + |ErrorSuffix| <= |m|
       && m[..|ErrorPrefix|] == ErrorPrefix && m[|m| - |ErrorSuffix|..] == ErrorSuffix
    then Some(m[|ErrorPrefix|..|m| - |ErrorSuffix|])
    else None
  }

  /** The success comment: the pull request URL after a fixed prefix. */
  function SuccessMessage(prUrl: string): (m: string)
    ensures |m| == |SuccessPrefix| + |prUrl|
  {
    SuccessPrefix + prUrl
  }

  /** Reads the pull request URL back out of a success comment, if it is one. */
  function SuccessUrl(m: string): (u: Option<string>)
  {
    if |SuccessPrefix| <= |m| && m[..|SuccessPrefix|] == SuccessPrefix
    then Some(m[|SuccessPrefix|..])
    else None
  }

  /** A bot-error comment gives back exactly the error text it was made from. */
  lemma BotErrorRoundTrip(errorText: string)
    ensures BotErrorText(BotErrorMessage(errorText)) == Some(errorText)
  {
    var m := BotErrorMessage(errorText);
    assert m[..|ErrorPrefix|] == ErrorPrefix;
    assert m[|m| - |ErrorSuffix|..] == ErrorSuffix;
    assert m[|ErrorPrefix|..|m| - |ErrorSuffix|] == errorText;
  }

  /** A success comment gives back exactly the pull request URL it was made from. */
  lemma SuccessRoundTrip(prUrl: string)
    ensures SuccessUrl(SuccessMessage(prUrl)) == Some(prUrl)
  {
    var m := SuccessMessage(prUrl);
    assert m[..|SuccessPrefix|] == SuccessPrefix;
    assert m[|SuccessPrefix|..] == prUrl;
  }

  /** Different error texts give different comments, and likewise for URLs. */
  lemma MessagesInjective(t1: string, t2: string, u1: string, u2: string)
    ensures BotErrorMessage(t1) == BotErrorMessage(t2) ==> t1 == t2
    ensures SuccessMessage(u1) == SuccessMessage(u2) ==> u1 == u2
  {
    BotErrorRoundTrip(t1);
    BotErrorRoundTrip(t2);
    SuccessRoundTrip(u1);
    SuccessRoundTrip(u2);
  }

  /**
   * The four kinds of comment cannot be mistaken for one another: the success
   * comment does not begin with `Error!`, and the invalid-syntax comment does
   * not end with the bot-error suffix.
   */
  lemma CommentsDistinct(errorText: string, prUrl: string)
    ensures BotErrorText(SuccessMessage(prUrl)) == None
    ensures BotErrorText(InvalidSyntaxMessage) == None
    ensures BotErrorText(RunningChecks) == None
    ensures SuccessUrl(BotErrorMessage(errorText)) == None
    ensures SuccessUrl(InvalidSyntaxMessage) == None
    ensures SuccessUrl(RunningChecks) == None
  {
    assert SuccessPrefix[0] == 'S' && ErrorPrefix[0] == 'E';
    assert SuccessMessage(prUrl)[..|ErrorPrefix|][0] == SuccessPrefix[0];
    assert BotErrorMessage(errorText)[..|SuccessPrefix|][0] == ErrorPrefix[0];
    assert InvalidSyntaxMessage[..|SuccessPrefix|][0] == InvalidSyntaxMessage[0];
    assert |InvalidSyntaxMessage| < |ErrorSuffix|;
  }

  /** The branch of a pull request: `update-{name}-{version}`. */
  function BranchName(name: string, version: string): (b: string)
    ensures |b| == 7 + |name| + 1 + |version|
  {
    "update-" + name + "-" + version
  }

  /**
   * Names without `-` determine the branch uniquely: the first `-` after
   * `update-` ends the name.
   */
  lemma BranchNameInjective(n1: string, v1: string, n2: string, v2: string)
    requires '-' !in n1 && '-' !in n2
    requires BranchName(n1, v1) == BranchName(n2, v2)
    ensures n1 == n2 && v1 == v2
  {
    var b := BranchName(n1, v1);
    assert b[7..] == n1 + "-" + v1 == n2 + "-" + v2;
    DashEndsName(n1, v1, |n2|);
    DashEndsName(n2, v2, |n1|);
    assert |n1| == |n2|;
    assert n1 == (n1 + "-" + v1)[..|n1|];
    assert n2 == (n2 + "-" + v2)[..|n2|];
    assert v1 == (n1 + "-" + v1)[|n1| + 1..];
    assert v2 == (n2 + "-" + v2)[|n2| + 1..];
  }

  /** In `name-version` with a dash-free name, the first dash stands right after the name. */
  lemma DashEndsName(name: string, version: string, k: nat)
    requires '-' !in name
    ensures (name + "-" + version)[|name|] == '-'
    ensures k < |name| ==> (name + "-" + version)[k] != '-'
  {
    if k < |name| {
      assert (name + "-" + version)[k] == name[k];
    }
  }

  /** With a `-` in the name, two different updates share one branch. */
  lemma BranchNameCollision()
    ensures BranchName("a-b", "1") == BranchName("a", "b-1")
  {
  }

  /** The commit message of `create_pull_request`, which is also the pull request title. */
  function CommitMessage(name: string, version: string): (m: string)
    ensures |m| == |"Update "| + |name| + |" to version "| + |version|
  {
    "Update " + name + " to version " + version
  }

  /** The pull request body. */
  function PullRequestBody(name: string, version: string): (m: string)
    ensures |m| == |"Automatic update for "| + |name| + |" to version "| + |version| + 1
  {
    "Automatic update for " + name + " to version " + version + "."
  }

  /** The body ends in a full stop and is the commit message's wording with its own lead-in. */
  lemma PullRequestBodyShape(name: string, version: string)
    ensures var m := PullRequestBody(name, version);
      m[|m| - 1] == '.' && m[..|m| - 1] == "Automatic update for " + CommitMessage(name, version)[|"Update "|..]
  {
    var m := PullRequestBody(name, version);
    assert m[..|m| - 1] == "Automatic update for " + name + " to version " + version;
    assert CommitMessage(name, version)[|"Update "|..] == name + " to version " + version;
  }

  /** The directory of a package: its name, read back after the `./packages/` prefix. */
  function PackageDir(name: string): (d: string)
    ensures |d| == 11 + |name| && d[..11] == "./packages/" && d[11..] == name
  {
    "./packages/" + name
  }

  /** The manifest of a package. */
  function ManifestPath(name: string): string
  {
    PackageDir(name) + "/package.toml"
  }

  /** `package{version without dots}.toml`, the name the old manifest is moved to. */
  function RenamedManifestName(version: string): (f: string)
    ensures |f| == 7 + |Without(version, '.')| + 5
    ensures f[..7] == "package" && f[|f| - 5..] == ".toml"
    ensures '.' !in f[7..|f| - 5]
  {
    var stem := Without(version, '.');
    var f := "package" + stem + ".toml";
    assert f[7..|f| - 5] == stem;
    f
  }

  /**
   * Where the old manifest is moved: a path under the manifest's own
   * directory (a `/` in the version reaches a subdirectory), and the
   * manifest itself exactly when the version is nothing but dots.
   */
  function RenamedManifestPath(name: string, version: string): (p: string)
    ensures |PackageDir(name)| < |p| && p[..|PackageDir(name)| + 1] == ManifestPath(name)[..|PackageDir(name)| + 1]
    ensures p == ManifestPath(name) <==> Without(version, '.') == []
  {
    var dir := PackageDir(name) + "/";
    var f := RenamedManifestName(version);
    assert ManifestPath(name) == dir + "package.toml";
    SameDirectory(dir, f, "package.toml");
    assert f == "package.toml" <==> Without(version, '.') == [] by {
      if Without(version, '.') == [] {
        assert f == "package" + [] + ".toml";
      }
    }
    dir + f
  }

  /** Two files in the same directory have the same path exactly when they have the same name. */
  lemma SameDirectory(dir: string, f: string, g: string)
    ensures (dir + f)[..|dir|] == (dir + g)[..|dir|]
    ensures dir + f == dir + g <==> f == g
  {
    if dir + f == dir + g {
      assert f == (dir + f)[|dir|..];
      assert g == (dir + g)[|dir|..];
    }
  }

  /** Versions that differ only in where their dots are give the same archived file. */
  lemma RenamedManifestCollision()
    ensures RenamedManifestName("1.10") == RenamedManifestName("11.0")
  {
    assert Without("1.10", '.') == "110";
    assert Without("11.0", '.') == "110";
  }
}
