/**
 * The bot's run over the open issues (`main`): which calls it makes for each
 * issue, in which order, depending on the parsed request and on the outcome
 * of publishing it. The GitHub calls are recorded in an action log; the
 * publishing step (archiving the old manifest, writing the new one, the git
 * commands and the pull request POST) is an oracle whose outcome the caller
 * supplies.
 */
module Orchestrator {
  import opened Wrappers
  import opened IssueParser
  import opened Messages

  /** The fields of an issue the bot reads; `isPullRequest` is the presence of the `pull_request` key. */
  datatype Issue = Issue(number: int, isPullRequest: bool, body: Option<string>)

  /** The answer to the issue list request. */
  datatype FetchResponse = FetchResponse(status: int, issues: seq<Issue>)

  /** `fetch_issues`: the whole list on status 200; no issue comes from any other answer. */
  function FetchIssues(r: FetchResponse): (l: seq<Issue>)
    ensures r.status == 200 ==> l == r.issues
    ensures l != [] ==> r.status == 200
  {
    if r.status == 200 then r.issues else []
  }

  /** What is written to `package.toml`. */
  datatype PackageData = PackageData(name: string, vers: string, url: string)

  /** Everything the publishing step is given for one request. */
  datatype Plan = Plan(
    branch: string,
    commitMessage: string,
    title: string,
    head: string,
    base: string,
    prBody: string,
    manifest: string,
    archivedManifest: string,
    data: PackageData)

  /** The plan for a request, as `main`, `rename_old_package_toml` and `create_pull_request` build it. */
  function PlanFor(r: Request): Plan
  {
    var message := CommitMessage(r.name, r.version);
    var branch := BranchName(r.name, r.version);
    Plan(branch, message, message, branch, BaseBranch, PullRequestBody(r.name, r.version),
         ManifestPath(r.name), RenamedManifestPath(r.name, r.version),
         PackageData(r.name, r.version, r.url))
  }

  /**
   * The pull request is opened from the branch that was pushed, onto `main`,
   * titled with the commit message; the manifest written holds the request as
   * parsed, and the old one is archived beside it under the version's name.
   */
  lemma PlanForShape(r: Request)
    ensures var p := PlanFor(r);
      && p.head == p.branch && p.title == p.commitMessage && p.base == BaseBranch
      && p.data == PackageData(r.name, r.version, r.url)
      && p.branch[..7] == "update-" && p.branch[7..7 + |r.name|] == r.name
      && p.archivedManifest[..|PackageDir(r.name)| + 1] == p.manifest[..|PackageDir(r.name)| + 1]
  {
    var p := PlanFor(r);
    assert p.branch == "update-" + r.name + "-" + r.version;
    assert p.archivedManifest[..|PackageDir(r.name)| + 1] == PackageDir(r.name) + "/";
    assert p.manifest[..|PackageDir(r.name)| + 1] == PackageDir(r.name) + "/";
  }

  /** How publishing ended: the pull request POST answered, or something raised first. */
  datatype PublishOutcome = Responded(status: int, htmlUrl: string) | Raised(text: string)

  /** `create_pull_request`'s result: the `html_url` on status 201, `None` otherwise. */
  function PullRequestUrl(o: PublishOutcome): (u: Option<string>)
    requires o.Responded?
    ensures u.Some? <==> o.status == 201
    ensures u.Some? ==> u.value == o.htmlUrl
  {
    if o.status == 201 then Some(o.htmlUrl) else None
  }

  /** The pull request a publishing outcome delivers: a 201 with a non-empty URL. */
  function Delivered(o: PublishOutcome): (u: Option<string>)
    ensures u.Some? <==> o.Responded? && o.status == 201 && o.htmlUrl != []
    ensures u.Some? ==> u.value == o.htmlUrl
  {
    if o.Raised? then None
    else match PullRequestUrl(o)
      case Some(url) => if url != [] then Some(url) else None
      case None => None
  }

  /** The calls the bot makes on GitHub. */
  datatype Action =
    | Comment(issue: int, text: string)
    | Label(issue: int, labelName: string)
    | Close(issue: int)
    | Publish(issue: int, plan: Plan)

  datatype ActionKind = CommentKind | LabelKind | CloseKind | PublishKind

  function KindOf(a: Action): ActionKind
  {
    match a
    case Comment(_, _) => CommentKind
    case Label(_, _) => LabelKind
    case Close(_) => CloseKind
    case Publish(_, _) => PublishKind
  }

  /** How many actions of kind k a log holds. */
  function Count(acts: seq<Action>, k: ActionKind): (n: nat)
    ensures n <= |acts|
  {
    if acts == [] then 0
    else Count(acts[..|acts| - 1], k) + Tally(acts[|acts| - 1], k)
  }

  lemma {:induction false} CountConcat(a: seq<Action>, b: seq<Action>, k: ActionKind)
    ensures Count(a + b, k) == Count(a, k) + Count(b, k)
    decreases |b|
  {
    if b == [] {
      assert a + b == a;
    } else {
      assert (a + b)[..|a + b| - 1] == a + b[..|b| - 1];
      CountConcat(a, b[..|b| - 1], k);
    }
  }

  function Tally(a: Action, k: ActionKind): nat
  {
    if KindOf(a) == k then 1 else 0
  }

  lemma CountOfThree(x: Action, y: Action, z: Action, k: ActionKind)
    ensures Count([x, y], k) == Tally(x, k) + Tally(y, k)
    ensures Count([x, y, z], k) == Tally(x, k) + Tally(y, k) + Tally(z, k)
  {
    assert [x, y, z][..2] == [x, y];
    assert [x, y][..1] == [x];
    assert [x][..0] == [];
  }

  lemma AppendAssoc(a: seq<Action>, b: seq<Action>, c: seq<Action>)
    ensures a + b + c == a + (b + c)
  {
  }

  /** A log holds no action of kind k exactly when its count is zero. */
  lemma {:induction false} CountZero(acts: seq<Action>, k: ActionKind)
    ensures Count(acts, k) == 0 <==> forall j :: 0 <= j < |acts| ==> KindOf(acts[j]) != k
  {
    if acts != [] {
      var init := acts[..|acts| - 1];
      CountZero(init, k);
      if Count(acts, k) == 0 {
        forall j | 0 <= j < |acts|
          ensures KindOf(acts[j]) != k
        {
          if j < |acts| - 1 {
            assert acts[j] == init[j];
          }
        }
      } else if KindOf(acts[|acts| - 1]) != k {
        var j :| 0 <= j < |init| && KindOf(init[j]) == k;
        assert acts[j] == init[j];
      }
    }
  }

  /** `if name and version and url`: all three present and non-empty. */
  predicate Accepted(parsed: Option<Request>)
  {
    parsed.Some? && parsed.value.name != [] && parsed.value.version != [] && parsed.value.url != []
  }

  /** A parsed request is turned down only for an empty name: the parser never returns an empty version or url. */
  lemma AcceptedUnlessNameEmpty(body: string)
    ensures ParseIssueBody(body).Some? ==> (Accepted(ParseIssueBody(body)) <==> ParseIssueBody(body).value.name != [])
  {
  }

  /** The request an issue asks the bot to publish, if it gets that far. */
  function Wanted(issue: Issue, parse: string -> Option<Request>): (r: Option<Request>)
    ensures r.Some? ==> !issue.isPullRequest && issue.body.Some?
    ensures r.Some? <==> !issue.isPullRequest && issue.body.Some? && Accepted(parse(issue.body.value))
    ensures r.Some? ==> r == parse(issue.body.value)
  {
    if issue.isPullRequest || issue.body.None? then None
    else
      var parsed := parse(issue.body.value);
      if Accepted(parsed) then parsed else None
  }

  /** What one issue's turn of the loop did, and whether it ended the run by raising. */
  datatype Step = Step(actions: seq<Action>, aborted: bool)

  /** The `except` branch: report the error, label the issue invalid, close it. */
  function ErrorActions(n: int, errorText: string): (acts: seq<Action>)
    ensures |acts| == 3 && acts[1] == Label(n, InvalidLabel) && acts[2] == Close(n)
    ensures acts[0].Comment? && acts[0].issue == n && BotErrorText(acts[0].text) == Some(errorText)
  {
    BotErrorRoundTrip(errorText);
    [Comment(n, BotErrorMessage(errorText)), Label(n, InvalidLabel), Close(n)]
  }

  /** What follows publishing: success comment and close, or the error branch. */
  function Reply(n: int, o: PublishOutcome): (acts: seq<Action>)
    ensures acts != [] && acts[|acts| - 1] == Close(n)
    ensures Label(n, InvalidLabel) in acts <==> Delivered(o).None?
    ensures Delivered(o).Some? ==> acts[0].Comment? && SuccessUrl(acts[0].text) == Delivered(o)
  {
    SuccessRoundTrip(if o.Responded? then o.htmlUrl else []);
    match o
    case Raised(t) => ErrorActions(n, t)
    case Responded(_, _) =>
      var prUrl := PullRequestUrl(o);
      if prUrl.Some? && prUrl.value != [] then [Comment(n, SuccessMessage(prUrl.value)), Close(n)]
      else ErrorActions(n, PullRequestFailure)
  }

  /**
   * The branch of `main` after the checks comment, for a parse result: an
   * accepted request is published and answered, anything else is rejected.
   */
  function Decide(index: nat, n: int, parsed: Option<Request>, publish: (nat, Plan) -> PublishOutcome): (acts: seq<Action>)
    ensures acts != [] && acts[|acts| - 1] == Close(n)
  {
    if Accepted(parsed) then
      var plan := PlanFor(parsed.value);
      [Publish(n, plan)] + Reply(n, publish(index, plan))
    else
      [Comment(n, InvalidSyntaxMessage), Label(n, InvalidLabel), Close(n)]
  }

  /**
   * The decision closes the issue once, publishes exactly when the request is
   * accepted, and labels the issue invalid exactly when no pull request was
   * delivered.
   */
  lemma DecideCounts(index: nat, n: int, parsed: Option<Request>, publish: (nat, Plan) -> PublishOutcome)
    ensures var acts := Decide(index, n, parsed, publish);
      && Count(acts, CloseKind) == 1
      && Count(acts, PublishKind) == (if Accepted(parsed) then 1 else 0)
      && Count(acts, LabelKind)
         == (if Accepted(parsed) && Delivered(publish(index, PlanFor(parsed.value))).Some? then 0 else 1)
  {
    if Accepted(parsed) {
      var plan := PlanFor(parsed.value);
      var o := publish(index, plan);
      var reply := Reply(n, o);
      ReplyCounts(n, o);
      CountConcat([Publish(n, plan)], reply, CloseKind);
      CountConcat([Publish(n, plan)], reply, PublishKind);
      CountConcat([Publish(n, plan)], reply, LabelKind);
    } else {
      var c := Comment(n, InvalidSyntaxMessage);
      CountOfThree(c, Label(n, InvalidLabel), Close(n), CloseKind);
      CountOfThree(c, Label(n, InvalidLabel), Close(n), PublishKind);
      CountOfThree(c, Label(n, InvalidLabel), Close(n), LabelKind);
    }
  }

  /** The reply closes the issue once and labels it invalid exactly when no pull request was delivered. */
  lemma ReplyCounts(n: int, o: PublishOutcome)
    ensures Count(Reply(n, o), CloseKind) == 1
    ensures Count(Reply(n, o), PublishKind) == 0
    ensures Count(Reply(n, o), LabelKind) == (if Delivered(o).Some? then 0 else 1)
  {
    if Delivered(o).Some? {
      var c := Comment(n, SuccessMessage(o.htmlUrl));
      CountOfThree(c, Close(n), Close(n), CloseKind);
      CountOfThree(c, Close(n), Close(n), PublishKind);
      CountOfThree(c, Close(n), Close(n), LabelKind);
    } else {
      var e := Reply(n, o);
      CountOfThree(e[0], e[1], e[2], CloseKind);
      CountOfThree(e[0], e[1], e[2], PublishKind);
      CountOfThree(e[0], e[1], e[2], LabelKind);
    }
  }

  /** Every action of the decision is about the issue it was made for. */
  lemma DecideConcerns(index: nat, n: int, parsed: Option<Request>, publish: (nat, Plan) -> PublishOutcome)
    ensures forall a :: a in Decide(index, n, parsed, publish) ==> a.issue == n
  {
  }

  /**
   * One turn of the loop in `main`: nothing for a pull request, otherwise
   * the checks comment and then the decision on the parsed body. A missing
   * body (JSON null) makes `re.search` raise outside the `try`, which ends
   * the run.
   */
  function IssueStep(index: nat, issue: Issue, parse: string -> Option<Request>, publish: (nat, Plan) -> PublishOutcome): (r: Step)
    ensures issue.isPullRequest ==> r == Step([], false)
    ensures !issue.isPullRequest ==> r.actions != [] && r.actions[0] == Comment(issue.number, RunningChecks)
    ensures r.aborted <==> !issue.isPullRequest && issue.body.None?
    ensures r.aborted ==> r.actions == [Comment(issue.number, RunningChecks)]
  {
    var n := issue.number;
    if issue.isPullRequest then Step([], false)
    else
      match issue.body
      case None => Step([Comment(n, RunningChecks)], true)
      case Some(b) => Step([Comment(n, RunningChecks)] + Decide(index, n, parse(b), publish), false)
  }

  /**
   * An issue's turn closes it exactly once, last, unless it is a pull request
   * or the run stopped on it; it publishes exactly when the request is
   * accepted, and labels the issue invalid exactly when no pull request was
   * delivered. Every action is about that issue.
   */
  lemma IssueStepCounts(index: nat, issue: Issue, parse: string -> Option<Request>, publish: (nat, Plan) -> PublishOutcome)
    ensures var r := IssueStep(index, issue, parse, publish);
      && (!issue.isPullRequest && !r.aborted ==> r.actions[|r.actions| - 1] == Close(issue.number))
      && Count(r.actions, CloseKind) == (if issue.isPullRequest || r.aborted then 0 else 1)
      && Count(r.actions, PublishKind) == (if Wanted(issue, parse).Some? then 1 else 0)
      && Count(r.actions, LabelKind)
         == (if issue.isPullRequest || r.aborted then 0
             else if Wanted(issue, parse).Some? && Delivered(publish(index, PlanFor(Wanted(issue, parse).value))).Some? then 0
             else 1)
  {
    if !issue.isPullRequest && issue.body.Some? {
      var n := issue.number;
      var d := Decide(index, n, parse(issue.body.value), publish);
      var r := IssueStep(index, issue, parse, publish);
      assert r.actions == [Comment(n, RunningChecks)] + d;
      DecideCounts(index, n, parse(issue.body.value), publish);
      CountConcat([Comment(n, RunningChecks)], d, CloseKind);
      CountConcat([Comment(n, RunningChecks)], d, PublishKind);
      CountConcat([Comment(n, RunningChecks)], d, LabelKind);
    }
  }

  /** Every action of an issue's turn is about that issue, and a pull request gets none. */
  lemma IssueStepConcerns(index: nat, issue: Issue, parse: string -> Option<Request>, publish: (nat, Plan) -> PublishOutcome)
    ensures forall a :: a in IssueStep(index, issue, parse, publish).actions ==> a.issue == issue.number && !issue.isPullRequest
  {
    if !issue.isPullRequest && issue.body.Some? {
      DecideConcerns(index, issue.number, parse(issue.body.value), publish);
    }
  }

  /** The first k issues of the list processed in order, stopping at the first that raises. */
  function RunUpTo(issues: seq<Issue>, parse: string -> Option<Request>, publish: (nat, Plan) -> PublishOutcome, k: nat): Step
    requires k <= |issues|
  {
    if k == 0 then Step([], false)
    else
      var prev := RunUpTo(issues, parse, publish, k - 1);
      if prev.aborted then prev
      else
        var st := IssueStep(k - 1, issues[k - 1], parse, publish);
        Step(prev.actions + st.actions, st.aborted)
  }

  /** One more issue of a run that has not stopped. */
  lemma RunUpToNext(issues: seq<Issue>, parse: string -> Option<Request>, publish: (nat, Plan) -> PublishOutcome, k: nat)
    requires k < |issues| && !RunUpTo(issues, parse, publish, k).aborted
    ensures RunUpTo(issues, parse, publish, k + 1)
         == Step(RunUpTo(issues, parse, publish, k).actions + IssueStep(k, issues[k], parse, publish).actions,
                 IssueStep(k, issues[k], parse, publish).aborted)
  {
  }

  /** The whole run of `main` on a fetch result. */
  function RunAll(fetched: FetchResponse, parse: string -> Option<Request>, publish: (nat, Plan) -> PublishOutcome): (r: Step)
    ensures fetched.status != 200 ==> r == Step([], false)
  {
    var issues := FetchIssues(fetched);
    RunUpTo(issues, parse, publish, |issues|)
  }

  /** The number of issues in a list that are not pull requests. */
  function CountIssues(issues: seq<Issue>): (n: nat)
    ensures n <= |issues|
  {
    if issues == [] then 0
    else (if issues[0].isPullRequest then 0 else 1) + CountIssues(issues[1..])
  }

  lemma {:induction false} CountIssuesSnoc(issues: seq<Issue>, k: nat)
    requires k < |issues|
    ensures CountIssues(issues[..k + 1]) == CountIssues(issues[..k]) + (if issues[k].isPullRequest then 0 else 1)
  {
    if k == 0 {
      assert issues[..1][1..] == [];
    } else {
      assert issues[..k + 1][1..] == issues[1..][..k];
      assert issues[..k][1..] == issues[1..][..k - 1];
      CountIssuesSnoc(issues[1..], k - 1);
    }
  }

  /** Once an issue has raised, later issues add nothing. */
  lemma {:induction false} RunHalts(issues: seq<Issue>, parse: string -> Option<Request>, publish: (nat, Plan) -> PublishOutcome, k: nat, k': nat)
    requires k <= k' <= |issues| && RunUpTo(issues, parse, publish, k).aborted
    ensures RunUpTo(issues, parse, publish, k') == RunUpTo(issues, parse, publish, k)
    decreases k' - k
  {
    if k' > k {
      RunHalts(issues, parse, publish, k, k' - 1);
      assert RunUpTo(issues, parse, publish, k') == RunUpTo(issues, parse, publish, k' - 1);
    }
  }

  /** The run stops exactly when it has reached an issue, not a pull request, without a body. */
  lemma {:induction false} RunAbortsIff(issues: seq<Issue>, parse: string -> Option<Request>, publish: (nat, Plan) -> PublishOutcome, k: nat)
    requires k <= |issues|
    ensures RunUpTo(issues, parse, publish, k).aborted
        <==> exists j :: 0 <= j < k && !issues[j].isPullRequest && issues[j].body.None?
  {
    if k > 0 {
      var prev := RunUpTo(issues, parse, publish, k - 1);
      RunAbortsIff(issues, parse, publish, k - 1);
      if prev.aborted {
        var j :| 0 <= j < k - 1 && !issues[j].isPullRequest && issues[j].body.None?;
        assert RunUpTo(issues, parse, publish, k) == prev;
      } else {
        var st := IssueStep(k - 1, issues[k - 1], parse, publish);
        assert RunUpTo(issues, parse, publish, k).aborted == st.aborted;
        if st.aborted {
          assert !issues[k - 1].isPullRequest && issues[k - 1].body.None?;
        }
      }
    }
  }

  /**
   * A run that did not stop made as many closes as there are issues that
   * are not pull requests, and no more publishes than that.
   */
  lemma {:induction false} RunClosesEach(issues: seq<Issue>, parse: string -> Option<Request>, publish: (nat, Plan) -> PublishOutcome, k: nat)
    requires k <= |issues| && !RunUpTo(issues, parse, publish, k).aborted
    ensures Count(RunUpTo(issues, parse, publish, k).actions, CloseKind) == CountIssues(issues[..k])
    ensures Count(RunUpTo(issues, parse, publish, k).actions, PublishKind) <= CountIssues(issues[..k])
  {
    if k == 0 {
      assert issues[..0] == [];
    } else {
      var prev := RunUpTo(issues, parse, publish, k - 1);
      var st := IssueStep(k - 1, issues[k - 1], parse, publish);
      RunClosesEach(issues, parse, publish, k - 1);
      IssueStepCounts(k - 1, issues[k - 1], parse, publish);
      CountConcat(prev.actions, st.actions, CloseKind);
      CountConcat(prev.actions, st.actions, PublishKind);
      CountIssuesSnoc(issues, k - 1);
    }
  }

  /** A turn that neither skips a pull request nor raises closes its issue. */
  lemma StepCloses(index: nat, issue: Issue, parse: string -> Option<Request>, publish: (nat, Plan) -> PublishOutcome)
    requires !issue.isPullRequest && issue.body.Some?
    ensures Close(issue.number) in IssueStep(index, issue, parse, publish).actions
  {
    var d := Decide(index, issue.number, parse(issue.body.value), publish);
    assert IssueStep(index, issue, parse, publish).actions == [Comment(issue.number, RunningChecks)] + d;
    assert d[|d| - 1] in d;
  }

  /** A run that did not stop closed issue j, when j is not a pull request. */
  lemma {:induction false} RunClosesOne(issues: seq<Issue>, parse: string -> Option<Request>, publish: (nat, Plan) -> PublishOutcome, k: nat, j: nat)
    requires j < k <= |issues| && !RunUpTo(issues, parse, publish, k).aborted && !issues[j].isPullRequest
    ensures Close(issues[j].number) in RunUpTo(issues, parse, publish, k).actions
    decreases k
  {
    var prev := RunUpTo(issues, parse, publish, k - 1);
    assert !prev.aborted;
    RunUpToNext(issues, parse, publish, k - 1);
    if j == k - 1 {
      StepCloses(k - 1, issues[k - 1], parse, publish);
    } else {
      RunClosesOne(issues, parse, publish, k - 1, j);
    }
  }

  /** A run that did not stop closed every issue of the list that is not a pull request. */
  lemma RunClosesEvery(issues: seq<Issue>, parse: string -> Option<Request>, publish: (nat, Plan) -> PublishOutcome, k: nat)
    requires k <= |issues| && !RunUpTo(issues, parse, publish, k).aborted
    ensures forall j :: 0 <= j < k && !issues[j].isPullRequest ==> Close(issues[j].number) in RunUpTo(issues, parse, publish, k).actions
  {
    forall j | 0 <= j < k && !issues[j].isPullRequest {
      RunClosesOne(issues, parse, publish, k, j);
    }
  }

  /** Every action of a run concerns an issue of the list that is not a pull request. */
  lemma RunActionsConcernIssues(issues: seq<Issue>, parse: string -> Option<Request>, publish: (nat, Plan) -> PublishOutcome, k: nat)
    requires k <= |issues|
    ensures forall a :: a in RunUpTo(issues, parse, publish, k).actions ==>
      a.issue in (set j | 0 <= j < k && !issues[j].isPullRequest :: issues[j].number)
  {
    forall a | a in RunUpTo(issues, parse, publish, k).actions
      ensures a.issue in (set j | 0 <= j < k && !issues[j].isPullRequest :: issues[j].number)
    {
      var j := RunActionConcerns(issues, parse, publish, k, a);
    }
  }

  /** The listed issue, not a pull request, that one action of a run is about. */
  lemma {:induction false} RunActionConcerns(issues: seq<Issue>, parse: string -> Option<Request>, publish: (nat, Plan) -> PublishOutcome, k: nat, a: Action)
    returns (j: nat)
    requires k <= |issues| && a in RunUpTo(issues, parse, publish, k).actions
    ensures j < k && !issues[j].isPullRequest && issues[j].number == a.issue
    decreases k
  {
    var prev := RunUpTo(issues, parse, publish, k - 1);
    if prev.aborted || a in prev.actions {
      j := RunActionConcerns(issues, parse, publish, k - 1, a);
    } else {
      var st := IssueStep(k - 1, issues[k - 1], parse, publish);
      RunUpToNext(issues, parse, publish, k - 1);
      assert a in st.actions;
      IssueStepConcerns(k - 1, issues[k - 1], parse, publish);
      j := k - 1;
    }
  }


  /** A rejected request: the checks comment, the invalid-syntax comment, the label, the close. Nothing is published. */
  lemma RejectedIssue(index: nat, issue: Issue, parse: string -> Option<Request>, publish: (nat, Plan) -> PublishOutcome)
    requires !issue.isPullRequest && issue.body.Some? && !Accepted(parse(issue.body.value))
    ensures IssueStep(index, issue, parse, publish).actions
         == [Comment(issue.number, RunningChecks), Comment(issue.number, InvalidSyntaxMessage),
             Label(issue.number, InvalidLabel), Close(issue.number)]
  {
  }

  /** A delivered pull request: its URL in the success comment, then the close, and no label. */
  lemma DeliveredIssue(index: nat, issue: Issue, parse: string -> Option<Request>, publish: (nat, Plan) -> PublishOutcome)
    requires Wanted(issue, parse).Some?
    requires Delivered(publish(index, PlanFor(Wanted(issue, parse).value))).Some?
    ensures var plan := PlanFor(Wanted(issue, parse).value);
      IssueStep(index, issue, parse, publish).actions
      == [Comment(issue.number, RunningChecks), Publish(issue.number, plan),
          Comment(issue.number, SuccessMessage(publish(index, plan).htmlUrl)), Close(issue.number)]
  {
  }

  /** A delivered pull request leaves no `invalid` label anywhere in the issue's turn. */
  lemma DeliveredIssueUnlabelled(index: nat, issue: Issue, parse: string -> Option<Request>, publish: (nat, Plan) -> PublishOutcome)
    requires Wanted(issue, parse).Some?
    requires Delivered(publish(index, PlanFor(Wanted(issue, parse).value))).Some?
    ensures var acts := IssueStep(index, issue, parse, publish).actions;
      forall j :: 0 <= j < |acts| ==> KindOf(acts[j]) != LabelKind
  {
    IssueStepCounts(index, issue, parse, publish);
    CountZero(IssueStep(index, issue, parse, publish).actions, LabelKind);
  }

  /** No pull request URL: the bot-error comment carries the `ValueError` text. */
  lemma UndeliveredIssue(index: nat, issue: Issue, parse: string -> Option<Request>, publish: (nat, Plan) -> PublishOutcome)
    requires Wanted(issue, parse).Some?
    requires publish(index, PlanFor(Wanted(issue, parse).value)).Responded?
    requires Delivered(publish(index, PlanFor(Wanted(issue, parse).value))).None?
    ensures var plan := PlanFor(Wanted(issue, parse).value);
      IssueStep(index, issue, parse, publish).actions
      == [Comment(issue.number, RunningChecks), Publish(issue.number, plan)]
         + ErrorActions(issue.number, PullRequestFailure)
  {
  }

  /** Publishing raised: the bot-error comment carries the error's text. */
  lemma RaisingIssue(index: nat, issue: Issue, parse: string -> Option<Request>, publish: (nat, Plan) -> PublishOutcome)
    requires Wanted(issue, parse).Some?
    requires publish(index, PlanFor(Wanted(issue, parse).value)).Raised?
    ensures var plan := PlanFor(Wanted(issue, parse).value);
      IssueStep(index, issue, parse, publish).actions
      == [Comment(issue.number, RunningChecks), Publish(issue.number, plan)]
         + ErrorActions(issue.number, publish(index, plan).text)
  {
  }

  /** The bot, with the log of the calls it has made on GitHub. */
  class Bot {
    var log: seq<Action>

    constructor()
      ensures log == []
    {
      log := [];
    }

    /** `comment_on_issue` */
    method CommentOnIssue(n: int, text: string)
      modifies this
      ensures log == old(log) + [Comment(n, text)]
    {
      log := log + [Comment(n, text)];
    }

    /** `add_label_to_issue` */
    method AddLabelToIssue(n: int, labelName: string)
      modifies this
      ensures log == old(log) + [Label(n, labelName)]
    {
      log := log + [Label(n, labelName)];
    }

    /** `close_issue` */
    method CloseIssue(n: int)
      modifies this
      ensures log == old(log) + [Close(n)]
    {
      log := log + [Close(n)];
    }

    /** `comment_invalid_syntax` */
    method CommentInvalidSyntax(n: int)
      modifies this
      ensures log == old(log) + [Comment(n, InvalidSyntaxMessage)]
    {
      CommentOnIssue(n, InvalidSyntaxMessage);
    }

    /** `comment_bot_error` */
    method CommentBotError(n: int, errorText: string)
      modifies this
      ensures log == old(log) + [Comment(n, BotErrorMessage(errorText))]
    {
      CommentOnIssue(n, BotErrorMessage(errorText));
    }

    /** `rename_old_package_toml` and `create_pull_request` for one plan; the outcome comes from the oracle. */
    method PublishUpdate(n: int, plan: Plan)
      modifies this
      ensures log == old(log) + [Publish(n, plan)]
    {
      log := log + [Publish(n, plan)];
    }

    /** The `except` branch of `main`: report the error, label the issue invalid, close it. */
    method ReportError(n: int, errorText: string)
      modifies this
      ensures log == old(log) + ErrorActions(n, errorText)
    {
      CommentBotError(n, errorText);
      AddLabelToIssue(n, InvalidLabel);
      CloseIssue(n);
    }

    /** What `main` does once publishing has ended, as it ended. */
    method ReplyTo(n: int, outcome: PublishOutcome)
      modifies this
      ensures log == old(log) + Reply(n, outcome)
    {
      if outcome.Raised? {
        ReportError(n, outcome.text);
      } else {
        var prUrl := PullRequestUrl(outcome);
        if prUrl.Some? && prUrl.value != [] {
          CommentOnIssue(n, SuccessMessage(prUrl.value));
          CloseIssue(n);
        } else {
          ReportError(n, PullRequestFailure);
        }
      }
    }

    /** The `try` block of `main` and its `except` branch, for the parse result of an issue. */
    method Answer(index: nat, n: int, parsed: Option<Request>, publish: (nat, Plan) -> PublishOutcome)
      modifies this
      ensures log == old(log) + Decide(index, n, parsed, publish)
    {
      if Accepted(parsed) {
        var plan := PlanFor(parsed.value);
        var outcome := publish(index, plan);
        PublishUpdate(n, plan);
        ReplyTo(n, outcome);
        AppendAssoc(old(log), [Publish(n, plan)], Reply(n, outcome));
      } else {
        CommentInvalidSyntax(n);
        AddLabelToIssue(n, InvalidLabel);
        CloseIssue(n);
      }
    }

    /** The body of the loop in `main` for one issue: a pull request is skipped with no action. */
    method ProcessIssue(index: nat, issue: Issue, publish: (nat, Plan) -> PublishOutcome) returns (crashed: bool)
      modifies this
      ensures log == old(log) + IssueStep(index, issue, ParseIssueBody, publish).actions
      ensures crashed == IssueStep(index, issue, ParseIssueBody, publish).aborted
    {
      if issue.isPullRequest {
        return false;
      }
      var n := issue.number;
      CommentOnIssue(n, RunningChecks);
      if issue.body.None? {
        return true;
      }
      var parsed := ParseIssueBody(issue.body.value);
      Answer(index, n, parsed, publish);
      AppendAssoc(old(log), [Comment(n, RunningChecks)], Decide(index, n, parsed, publish));
      crashed := false;
    }

    /** One more turn of the loop of `main`, for a run that has not stopped; `start` is the log before the run. */
    method ProcessNext(issues: seq<Issue>, i: nat, publish: (nat, Plan) -> PublishOutcome,
                       ghost start: seq<Action>)
      returns (crashed: bool)
      requires i < |issues| && !RunUpTo(issues, ParseIssueBody, publish, i).aborted
      requires log == start + RunUpTo(issues, ParseIssueBody, publish, i).actions
      modifies this
      ensures log == start + RunUpTo(issues, ParseIssueBody, publish, i + 1).actions
      ensures crashed == RunUpTo(issues, ParseIssueBody, publish, i + 1).aborted
    {
      RunUpToNext(issues, ParseIssueBody, publish, i);
      ghost var before := RunUpTo(issues, ParseIssueBody, publish, i).actions;
      ghost var turn := IssueStep(i, issues[i], ParseIssueBody, publish).actions;
      crashed := ProcessIssue(i, issues[i], publish);
      AppendAssoc(start, before, turn);
    }

    /** `main`: fetch the issues and process each in turn until one raises. */
    method Run(fetched: FetchResponse, publish: (nat, Plan) -> PublishOutcome) returns (crashed: bool)
      modifies this
      ensures log == old(log) + RunAll(fetched, ParseIssueBody, publish).actions
      ensures crashed == RunAll(fetched, ParseIssueBody, publish).aborted
    {
      var issues := FetchIssues(fetched);
      crashed := false;
      var i := 0;
      while i < |issues| && !crashed
        invariant 0 <= i <= |issues|
        invariant log == old(log) + RunUpTo(issues, ParseIssueBody, publish, i).actions
        invariant crashed == RunUpTo(issues, ParseIssueBody, publish, i).aborted
        decreases |issues| - i
      {
        crashed := ProcessNext(issues, i, publish, old(log));
        i := i + 1;
      }
      if crashed {
        RunHalts(issues, ParseIssueBody, publish, i, |issues|);
      }
    }
  }
}
