# packagedingus bot: a Dafny model

The packagedingus package index lets people ask for a package update by opening
an issue. The issue body names the package, its version and its sources URL. A
bot (`bot.py`) does the following:

1. It lists the open issues and skips pull requests.
2. It comments "Running checks..." on each issue.
3. It parses the body with three regular expressions.
4. If parsing gives a usable request, it does two things:
   - it archives the package's old `package.toml` and writes the new one;
   - it commits and pushes the change on a branch `update-{name}-{version}`, then opens a pull request.
5. It answers the issue with:
   - a success comment and a close;
   - or an error comment, the label `invalid` and a close.

The model has seven modules.

- `Wrappers`: `Option`.
- `Text`:
  - ASCII whitespace and ASCII case folding;
  - the greedy runs a regular expression takes;
  - `Without`, which is `str.replace(c, "")`.
- `IssueParser`: `parse_issue_body`.
  - Each of the three patterns has its own matcher, and `Search` is the leftmost search `re.search` performs.
  - A ghost "split" predicate per pattern says which index choices make the pattern match at a position, and what it captures there.
  - For `Name:\s*([^\n]+)`, the split Python's backtracking engine reports is the one with the greatest whitespace run, then the longest group. The model includes the case where `\s*` gives characters back at the end of the body.
  - For the other two patterns the split is unique, and this is proved.
- `ParserProperties`: general lemmas about the parser, which let a search result be read off a given body.
- `ParserExamples`: worked bodies and what they parse to.
- `Messages`: the strings the bot builds:
  - the comments;
  - the branch;
  - the commit message and pull request;
  - the manifest paths.
- `Orchestrator`: the run of `main`.
  - Each GitHub call the bot makes is an `Action` appended to the `log` of a `Bot` object.
  - Publishing is an oracle `publish(index, plan)` that the caller supplies. It covers archiving, writing the manifest, the git commands and the pull request POST. It answers with the POST's status and `html_url`, or with the text of whatever raised.
  - `IssueStep` and `RunUpTo` are functions that give the exact action sequence of one issue's turn and of the first k turns.
  - They take the body parser as a parameter, so their lemmas hold for any parser. `Bot.ProcessIssue` and `Bot.Run` use `ParseIssueBody`.

Some behaviours of `bot.py` worth knowing, all of them in the model:

- The patterns are not anchored to the start of a line, so `Username: x` supplies the name.
- The whitespace after `Name:` may cross newlines.
- Only spaces are removed from the name. A tab stays, and a carriage return from a CRLF body stays at the end of the name.
- An existing manifest is not simply overwritten: it is first renamed to `package{version without dots}.toml`.
- A successful publish closes the issue.

## Model

| member | source | states |
|---|---|---|
| Text.Lower | bot.py:28-30 | `(?i)` as ASCII folding: each upper-case letter maps to its own lower-case letter, every other character is unchanged |
| Text.SpaceEnd | bot.py:28-30 | the greedy `\s*` starting at i stops at the first non-whitespace character or at the end of the text |
| Text.NextIndexOf | bot.py:28-30 | the greedy `[^\n]+` / `[^"]+` stops at the next occurrence of the excluded character or at the end of the text |
| Text.Without | bot.py:37 | `replace(c, "")` keeps exactly the characters other than c and is never longer |
| Text.WithoutConcat | bot.py:37 | removing a character distributes over concatenation |
| Text.WithoutNothing | bot.py:37 | a string without c is left unchanged |
| Text.WithoutIdempotent | bot.py:37 | removing spaces twice is the same as once |
| IssueParser.LastNotNewline | bot.py:28 | the last non-newline position of a range, or None when the range is all newlines |
| IssueParser.NameAt | bot.py:28 | the name matcher returns the split Python prefers (greatest whitespace run, then longest group), and None exactly when no split exists |
| IssueParser.NameSplitsBounded | bot.py:28 | every name split starts its group within the whitespace run at a non-newline and ends it by the next newline |
| IssueParser.QuotedAt | bot.py:29-30 | `\s*"([^"]+)"` matches in at most one way, and the matcher finds it |
| IssueParser.VersionAt | bot.py:29 | the version matcher returns the group-2 bounds of the only split, with or without `latest` |
| IssueParser.VersionSplitsForced | bot.py:29 | all version splits agree on where the whitespace stops and on whether `latest` is taken |
| IssueParser.UrlAt | bot.py:30 | the url matcher returns the bounds of the only split |
| IssueParser.MatchAt | bot.py:28-30 | the matcher succeeds exactly when the pattern matches at i, and it reports Python's group |
| IssueParser.NoMatchPastEnd | bot.py:32-34 | no pattern matches beyond the end of the text |
| IssueParser.Search | bot.py:32-34 | `re.search` gives the leftmost match position with its group, or None exactly when the pattern matches nowhere |
| IssueParser.Tidy | bot.py:37 | the name group loses every space and keeps every other character; the version and url groups are kept as they are |
| IssueParser.ParseIssueBody | bot.py:27-41 | a returned name has no space and no newline; a returned version or url is non-empty and has no `"` |
| IssueParser.ParseAllOrNothing | bot.py:36-41 | a request is returned exactly when all three patterns match somewhere, and never a partial triple |
| IssueParser.GroupShape | bot.py:28-30 | a reported name group has no newline; a reported version or url group has no quote |
| IssueParser.ReportedUnique | bot.py:32-34 | Python reports one group per match position |
| IssueParser.ParseIsLeftmost | bot.py:32-39 | each field comes from the leftmost match of its pattern, whatever occurs later |
| IssueParser.MatchStartsWithKey | bot.py:28-30 | every match begins with its pattern's literal key, in any case |
| IssueParser.SearchFinds | bot.py:32-34 | a search reports i when the pattern matches at i and nowhere earlier |
| IssueParser.ParsedField | bot.py:36-39 | each field of a parsed request is its pattern's search group; the name has its spaces removed |
| ParserProperties.NoEarlierMatch | bot.py:32-34 | a pattern cannot match in a prefix that lacks its key |
| ParserProperties.NameFoundAt | bot.py:28-32 | `Name:` as the first name key, then whitespace, then a line: the search reports that line, up to the newline |
| ParserProperties.NameOfSpacesOnly | bot.py:28-37 | `Name:` followed only by spaces gives back one space, so the name is empty |
| ParserProperties.VersionFoundAt | bot.py:29-33 | `Version`, optionally `latest`, `:`, then a quoted value: the search reports the quoted text without `latest` |
| ParserProperties.UrlFoundAt | bot.py:30-34 | `url:` then a quoted value: the search reports the quoted text |
| ParserProperties.EmptyQuotedFails | bot.py:29-30 | `""` after the whitespace admits no quoted split |
| ParserProperties.QuotedStartsAtFirstQuote | bot.py:29-30 | a quoted group starts right after the first quote past the whitespace |
| ParserProperties.EmptyUrlFails | bot.py:30 | `url: ""` does not match at that position |
| ParserProperties.MissingKeyFails | bot.py:36-41 | a body without one of the keys gives no request |
| ParserProperties.ParseOfSearches | bot.py:36-40 | the request is built from the three search groups, with the name's spaces removed |
| ParserExamples.UsernameMatches | bot.py:28-32 | `Username: pkg` supplies the name `pkg` |
| ParserExamples.NameOnNextLine | bot.py:28 | `\s*` crosses the newline after `Name:` |
| ParserExamples.NameKeepsCarriageReturn | bot.py:28 | the name group of a CRLF line ends with the carriage return |
| ParserExamples.NameOfTrailingSpaces | bot.py:28 | trailing spaces after `Name:` give back the last space as the group |
| ParserExamples.LatestAnyCase | bot.py:29 | `VERSION Latest:"1"` matches, and the group is `1` |
| ParserExamples.EmptyUrlNotFound | bot.py:30-34 | `url: ""` is not found at all |
| ParserExamples.MissingVersion | bot.py:36-41 | no version line gives no request |
| ParserExamples.CompleteName | bot.py:28-32 | the name search on a three-line body |
| ParserExamples.CompleteVersion | bot.py:29-33 | the version search on a three-line body |
| ParserExamples.CompleteUrl | bot.py:30-34 | the url search on a three-line body |
| ParserExamples.CompleteParses | bot.py:27-41 | a three-line body parses to exactly its triple |
| ParserExamples.FilledName | bot.py:28-32 | the name search on a body with capitalised keys and a space after each colon |
| ParserExamples.FilledVersion | bot.py:29-33 | the version search on that body, with a dotted version |
| ParserExamples.FilledUrl | bot.py:30-34 | the url search on that body, with a full URL |
| ParserExamples.FilledParses | bot.py:27-41 | that body parses to `Foo`, `1.2.3` and its URL |
| Messages.BotErrorMessage | bot.py:109 | the bot-error comment is as long as its prefix, the error text and its suffix together |
| Messages.BotErrorRoundTrip | bot.py:109 | the error text can be read back out of the bot-error comment |
| Messages.SuccessMessage | bot.py:132 | the success comment is as long as its lead-in and the URL together |
| Messages.SuccessRoundTrip | bot.py:132 | the pull request URL can be read back out of the success comment |
| Messages.MessagesInjective | bot.py:108-132 | different error texts, or URLs, give different comments |
| Messages.CommentsDistinct | bot.py:105-132 | no success comment is a bot-error comment and vice versa; neither the checks nor the invalid-syntax comment is either |
| Messages.BranchName | bot.py:127 | `update-{name}-{version}` is 8 characters longer than the name and version together |
| Messages.BranchNameInjective | bot.py:127 | when neither name contains `-`, the branch determines the name and the version |
| Messages.BranchNameCollision | bot.py:127 | with a `-` in the name, two different updates share one branch |
| Messages.CommitMessage | bot.py:44 | `Update {name} to version {version}` is as long as its fixed words, name and version together |
| Messages.PullRequestBody | bot.py:70 | `Automatic update for {name} to version {version}.` is as long as its fixed words, name, version and full stop together |
| Messages.PullRequestBodyShape | bot.py:44-70 | the pull request body is the commit message's wording with its own lead-in and a full stop |
| Messages.PackageDir | bot.py:52 | the package directory is `./packages/` followed by the name, which can be read back from it |
| Messages.RenamedManifestName | bot.py:82 | `package{version without dots}.toml`, with no dot before the extension |
| Messages.RenamedManifestPath | bot.py:79-83 | the old manifest is moved to a path under its own directory, and onto itself exactly when the version is all dots |
| Messages.RenamedManifestCollision | bot.py:82 | `1.10` and `11.0` archive to the same file |
| Orchestrator.FetchIssues | bot.py:20-25 | the whole decoded list on status 200; no issue comes from any other answer |
| Orchestrator.PlanFor | bot.py:43-72 | the plan built for a request (branch, commit message, pull request fields, manifest paths, manifest data); its properties are stated by `PlanForShape` |
| Orchestrator.PlanForShape | bot.py:43-72 | the pull request is opened from the pushed branch onto `main`, titled by the commit message; the manifest holds the request |
| Orchestrator.PullRequestUrl | bot.py:72-77 | `create_pull_request` returns a URL exactly on status 201, and then it is the answer's `html_url` |
| Orchestrator.Delivered | bot.py:72-77 | a pull request is delivered exactly on status 201 with a non-empty `html_url` |
| Orchestrator.Accepted | bot.py:125 | `if name and version and url`: a request came back and none of its fields is empty; `AcceptedUnlessNameEmpty` states what this means for the parser's results |
| Orchestrator.AcceptedUnlessNameEmpty | bot.py:125 | a parsed request is turned down only when its name is empty |
| Orchestrator.Wanted | bot.py:117-129 | an issue is published exactly when it is not a pull request, has a body, and its parse is accepted; what is published is that parse of its body |
| Orchestrator.ErrorActions | bot.py:136-139 | the `except` branch: a bot-error comment from which the error text reads back, then the `invalid` label, then the close |
| Orchestrator.Reply | bot.py:131-139 | after publishing the issue is closed last; it is labelled `invalid` exactly when no pull request was delivered; a delivered pull request's URL reads back from the first comment |
| Orchestrator.Decide | bot.py:125-143 | every decision ends by closing the issue |
| Orchestrator.DecideCounts | bot.py:125-143 | one close; one publish exactly when accepted; one `invalid` label exactly when no pull request was delivered |
| Orchestrator.ReplyCounts | bot.py:131-139 | after publishing: one close, and the label exactly when nothing was delivered |
| Orchestrator.DecideConcerns | bot.py:125-143 | every action of a decision is about that issue |
| Orchestrator.IssueStep | bot.py:116-123 | a pull request gets no action; any other issue first gets "Running checks..."; a missing body stops the run after that comment |
| Orchestrator.IssueStepCounts | bot.py:116-143 | a turn closes its issue once, last; it publishes exactly when the request is wanted; it labels exactly when nothing was delivered |
| Orchestrator.StepCloses | bot.py:121-143 | an issue that is not a pull request and has a body gets closed in its turn |
| Orchestrator.IssueStepConcerns | bot.py:116-143 | a turn's actions are about its issue, and a pull request gets none |
| Orchestrator.RunUpTo | bot.py:115-143 | the loop over the first k issues, stopping at the first that raises; its properties are stated by `RunUpToNext`, `RunHalts`, `RunAbortsIff`, `RunClosesEach`, `RunClosesEvery` and `RunActionsConcernIssues` |
| Orchestrator.RunUpToNext | bot.py:116-143 | a run that has not stopped grows by exactly the next issue's turn |
| Orchestrator.RunAll | bot.py:112-116 | a failed issue list request leads to no action at all |
| Orchestrator.RunHalts | bot.py:123 | once an issue has raised, later issues add nothing |
| Orchestrator.RunAbortsIff | bot.py:116-123 | the run stops exactly when it reaches an issue, not a pull request, without a body |
| Orchestrator.RunClosesEach | bot.py:116-143 | a run that did not stop made as many closes as there are non-pull-request issues, and no more publishes than that |
| Orchestrator.RunClosesOne | bot.py:116-143 | a run that did not stop closed issue j of the list when it is not a pull request |
| Orchestrator.RunClosesEvery | bot.py:116-143 | a run that did not stop closed every listed issue that is not a pull request |
| Orchestrator.RunActionConcerns | bot.py:116-143 | each action of a run names the listed issue, not a pull request, whose turn made it |
| Orchestrator.RunActionsConcernIssues | bot.py:116-143 | every action of a run is about a listed issue that is not a pull request |
| Orchestrator.RejectedIssue | bot.py:121-143 | a rejected request gets the checks comment, the invalid-syntax comment, the label and the close, and nothing is published |
| Orchestrator.DeliveredIssue | bot.py:129-133 | a delivered pull request: publish, then the success comment with its URL, then the close, with no label |
| Orchestrator.DeliveredIssueUnlabelled | bot.py:131-133 | a delivered pull request leaves no `invalid` label in the issue's turn |
| Orchestrator.UndeliveredIssue | bot.py:134-139 | no URL: the bot-error comment with "Failed to create pull request", the label and the close |
| Orchestrator.RaisingIssue | bot.py:136-139 | publishing raised: the bot-error comment with the error's text, the label and the close |
| Orchestrator.Bot.CommentOnIssue | bot.py:85-90 | appends the comment to the log |
| Orchestrator.Bot.AddLabelToIssue | bot.py:92-96 | appends the label to the log |
| Orchestrator.Bot.CloseIssue | bot.py:98-102 | appends the close to the log |
| Orchestrator.Bot.CommentInvalidSyntax | bot.py:104-106 | appends the invalid-syntax comment |
| Orchestrator.Bot.CommentBotError | bot.py:108-110 | appends the bot-error comment for the text |
| Orchestrator.Bot.PublishUpdate | bot.py:128-129 | appends the publish action for the plan |
| Orchestrator.Bot.ReportError | bot.py:136-139 | appends the `except` branch's three actions |
| Orchestrator.Bot.ReplyTo | bot.py:131-139 | appends what follows publishing, as `Reply` gives it |
| Orchestrator.Bot.Answer | bot.py:125-143 | appends the decision's actions, as `Decide` gives them |
| Orchestrator.Bot.ProcessIssue | bot.py:117-143 | appends one issue's turn, as `IssueStep` with `ParseIssueBody` gives it, and reports whether it raised |
| Orchestrator.Bot.ProcessNext | bot.py:116-143 | extends the log of a run that has not stopped from k to k + 1 issues |
| Orchestrator.Bot.Run | bot.py:112-143 | the log grows by exactly the run's actions, and the result says whether the run stopped |

## Left out

- HTTP is not modelled.
  - The GET of `fetch_issues` is a `FetchResponse` value: a status and the decoded issues.
  - The comment, label and close calls are only logged. Their responses are ignored, as in the source.
  - The pull request POST is not logged as a call of its own. Its answer, the status and `html_url` that bot.py:72-77 reads, comes from the publish oracle as `Responded(status, htmlUrl)`.
  - JSON decoding, headers, tokens and URLs are not modelled.
- The git commands run through `os.system` are not modelled: their exit codes are ignored, and they live inside the publish oracle. The commit message is passed to the shell in single quotes, so a name or version containing a quote would change the command; this is not modelled.
- Filesystem effects are modelled only as the paths in the `Plan`:
  - `os.makedirs`;
  - writing the manifest with `toml.dump`;
  - the existence test;
  - the rename.
- Reading `BOT_TOKEN` and `BOT_EMAIL` from the environment is not modelled.
- Unicode is not modelled. `\s` is the ASCII part of Python's `str` whitespace class (space, tab, newline, carriage return, vertical tab, form feed and the separators 0x1C-0x1F); other Unicode whitespace such as 0x85 or 0xA0 is not. `(?i)` folds only ASCII letters.
- `issue['user']['login']` (bot.py:119) is read and never used. A missing key raising is not modelled.
- Orchestrator.Bot.CommentOnIssue: the comment, label and close calls never raise in the model. In the source, a request error raised by the success comment or the close inside the `try` would lead to the error branch instead.
- A missing `number` or `body` key, and a non-list JSON answer on status 200, are not modelled. A body that is JSON null is modelled: `re.search` raises outside the `try`, ending the run.
- Orchestrator.IssueStep: this function, `Wanted`, `RunUpTo` and `RunAll` take the parser as a parameter. The lemmas about them hold for any parser. Only `Bot.ProcessIssue` and `Bot.Run` fix it to `ParseIssueBody`.
