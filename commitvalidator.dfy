/**
  The request-handling decision logic of the commit-validator webhook: the
  file-list validator `validatePR` and the control flow of `prWebhookHandler`.

  HTTP, JSON and the platform's REST API are abstracted away. The handler
  receives the event already decoded (or the fact that decoding failed), asks
  the oracles in a `GitHub` record for the results of its outbound calls, and
  returns the text it writes to the response together with the trace of the
  outbound calls it makes, in the order it makes them.
*/
module CommitValidator {
  import opened Decimal

  datatype Result<T> = Ok(value: T) | Err(message: string)

  /** A changed file as the platform lists it; only the fields the handler reads. */
  datatype PRFile = PRFile(filename: string, additions: int, deletions: int, changes: int)

  /**
    The fields of a pull-request event that the handler reads. A field that is
    absent from the JSON decodes to its zero value ("" or 0).
  */
  datatype PREvent = PREvent(
    action: string,
    number: int,             // top-level `number`
    pullRequestNumber: int,  // `pull_request.number`
    repoName: string,        // `repository.name`
    ownerLogin: string)      // `repository.owner.login`

  /** The outcome of decoding the request's payload. */
  datatype Payload = Unparsable | Parsed(event: PREvent)

  /** An outbound call to the platform's REST API, with its arguments. */
  datatype Call =
    | FetchPRFiles(owner: string, repo: string, number: int)
    | UpdatePRStatus(owner: string, repo: string, number: int, state: string, description: string)
    | ClosePullRequest(owner: string, repo: string, number: int)

  /**
    What the platform answers to each outbound call: the changed files or an
    error for the fetch, success or an error for the status update and the close.
  */
  datatype GitHub = GitHub(
    fetchPRFiles: (string, string, int) -> Result<seq<PRFile>>,
    updatePRStatus: (string, string, int, string, string) -> Result<()>,
    closePullRequest: (string, string, int) -> Result<()>)

  const Forbidden := "forbidden.txt"
  const Opened := "opened"


  // ---------------------------------------------------------------------------
  // The validator

  /** Some changed file is named exactly "forbidden.txt". */
  predicate HasForbidden(files: seq<PRFile>) {
    exists i | 0 <= i < |files| :: files[i].filename == Forbidden
  }

  /**
    `validatePR` as written: scan the files in order, fail at the first one
    named "forbidden.txt", and after the scan also fail.
  */
  function ValidatePR(files: seq<PRFile>): (passed: bool) {
    if files == [] then false                    // the scan is over
    else if files[0].filename == Forbidden then false
    else ValidatePR(files[1..])
  }

  /** A list with a file named "forbidden.txt" fails validation. */
  lemma {:induction false} ForbiddenFileFails(files: seq<PRFile>)
    requires HasForbidden(files)
    ensures !ValidatePR(files)
  {
    if files[0].filename != Forbidden {
      var i :| 0 <= i < |files| && files[i].filename == Forbidden;
      assert files[1..][i - 1].filename == Forbidden;
      ForbiddenFileFails(files[1..]);
    }
  }

  /** A list without such a file, the empty list included, fails validation too. */
  lemma {:induction false} CleanListFails(files: seq<PRFile>)
    requires !HasForbidden(files)
    ensures !ValidatePR(files)
  {
    if files != [] {
      assert forall i | 0 <= i < |files[1..]| :: files[1..][i] == files[i + 1];
      CleanListFails(files[1..]);
    }
  }

  /** So validation never passes, whatever the files. */
  lemma {:induction false} ValidationNeverPasses(files: seq<PRFile>)
    ensures !ValidatePR(files)
  {
    if HasForbidden(files) {
      ForbiddenFileFails(files);
    } else {
      CleanListFails(files);
    }
  }

  // ---------------------------------------------------------------------------
  // What the handler decides and writes

  /** The pull-request number the handler acts on; 0 means none was found. */
  function ResolveNumber(ev: PREvent): (n: int)
    ensures ev.pullRequestNumber != 0 ==> n == ev.pullRequestNumber
    ensures n == ev.pullRequestNumber || n == ev.number
    ensures n == 0 <==> ev.pullRequestNumber == 0 && ev.number == 0
  {
    if ev.pullRequestNumber != 0 then ev.pullRequestNumber else ev.number
  }

  /** The request passes the decoding, action and number checks and goes on to fetch the files. */
  predicate Proceeds(p: Payload) {
    p.Parsed? && p.event.action == Opened && ResolveNumber(p.event) != 0
  }

  /** The file fetch a proceeding request makes. */
  function FetchCall(ev: PREvent): Call {
    FetchPRFiles(ev.ownerLogin, ev.repoName, ResolveNumber(ev))
  }

  /** What the platform answers to the file fetch of `ev`. */
  function Fetched(gh: GitHub, ev: PREvent): Result<seq<PRFile>> {
    gh.fetchPRFiles(ev.ownerLogin, ev.repoName, ResolveNumber(ev))
  }

  /** One write of the handler to its response: one `fmt.Fprintf` and its arguments. */
  datatype Write =
    | ParseFailed
    | Ignoring(action: string)
    | NoNumber
    | FetchFailed
    | Summary(number: int, state: string)
    | FilesHeading
    | FileEntry(file: PRFile)

  const SummaryMiddle := " validation complete. Status: "

  /** The text a write puts in the response. */
  function Render(w: Write): string {
    match w
    case ParseFailed => "Webhook received, but could not parse PR event"
    case Ignoring(action) => "Ignoring PR event with action: " + action
    case NoNumber => "No PR number found"
    case FetchFailed => "Error fetching PR files"
    case Summary(n, state) => "PR #" + FormatInt(n) + SummaryMiddle + state + "\n"
    case FilesHeading => "Files changed in PR:\n"
    case FileEntry(f) =>
      "- " + f.filename + " (additions: " + FormatInt(f.additions)
        + ", deletions: " + FormatInt(f.deletions)
        + ", changes: " + FormatInt(f.changes) + ")\n"
  }

  /** The response body: the texts of the writes, one after the other. */
  function Text(writes: seq<Write>): string {
    if writes == [] then "" else Render(writes[0]) + Text(writes[1..])
  }

  lemma CancelPrefix(p: string, a: string, b: string)
    requires p + a == p + b
    ensures a == b
  {
    assert a == (p + a)[|p|..];
    assert b == (p + b)[|p|..];
  }

  lemma CancelSuffix(a: string, b: string, q: string)
    requires a + q == b + q
    ensures a == b
  {
    assert a == (a + q)[..|a|];
    assert b == (b + q)[..|b|];
  }

  /** The summary line, split where its number and its state start. */
  lemma SummaryParts(n: int, state: string)
    ensures Render(Summary(n, state)) == "PR #" + (FormatInt(n) + (SummaryMiddle + (state + "\n")))
  {
  }

  /** The summary line identifies the pull request's number and its reported state. */
  lemma SummaryIdentifies(m: int, s: string, n: int, t: string)
    requires Render(Summary(m, s)) == Render(Summary(n, t))
    ensures m == n && s == t
  {
    SummaryParts(m, s);
    SummaryParts(n, t);
    CancelPrefix("PR #", FormatInt(m) + (SummaryMiddle + (s + "\n")), FormatInt(n) + (SummaryMiddle + (t + "\n")));
    FormatDelimited(m, n, SummaryMiddle + (s + "\n"), SummaryMiddle + (t + "\n"));
    CancelPrefix(SummaryMiddle, s + "\n", t + "\n");
    CancelSuffix(s, t, "\n");
  }

  /**
    A response that starts with the summary and the heading reads
    "PR #<n> validation complete. Status: <state>", a newline,
    "Files changed in PR:", a newline, and then the texts of the other writes.
  */
  lemma ReportText(writes: seq<Write>, n: int, state: string)
    requires |writes| >= 2 && writes[0] == Summary(n, state) && writes[1] == FilesHeading
    ensures Text(writes)
      == "PR #" + FormatInt(n) + SummaryMiddle + state + "\n" + "Files changed in PR:\n" + Text(writes[2..])
  {
  }

  // ---------------------------------------------------------------------------
  // The handler

  /**
    `prWebhookHandler` from the decoded payload on. `writes` are its writes to
    the response, in order, so the response body is `Text(writes)`; `calls`
    are the outbound calls it makes, in order.
  */
  method HandleWebhook(payload: Payload, gh: GitHub) returns (writes: seq<Write>, calls: seq<Call>)
    // an undecodable payload is acknowledged and nothing else happens
    ensures payload.Unparsable? ==> writes == [ParseFailed] && calls == []
    // any action other than "opened" is ignored, whatever the numbers
    ensures payload.Parsed? && payload.event.action != Opened ==>
      writes == [Ignoring(payload.event.action)] && calls == []
    // an opened event without a number is dropped
    ensures payload.Parsed? && payload.event.action == Opened && ResolveNumber(payload.event) == 0 ==>
      writes == [NoNumber] && calls == []
    // otherwise the files are fetched first, and every call is for the same pull request
    ensures Proceeds(payload) ==>
      && |calls| > 0 && calls[0] == FetchCall(payload.event)
      && forall i | 0 <= i < |calls| ::
           calls[i].owner == payload.event.ownerLogin && calls[i].repo == payload.event.repoName
           && calls[i].number == ResolveNumber(payload.event)
    // a failed fetch ends the request
    ensures Proceeds(payload) && Fetched(gh, payload.event).Err? ==>
      writes == [FetchFailed] && calls == [FetchCall(payload.event)]
    // after a successful fetch: one status update, then a close exactly when validation failed;
    // the response reports the number and the state, then lists the files in the order fetched
    ensures Proceeds(payload) && Fetched(gh, payload.event).Ok? ==>
      var f := FetchCall(payload.event);
      var files := Fetched(gh, payload.event).value;
      var passed := ValidatePR(files);
      var state := if passed then "success" else "failure";
      var description := if passed then "PR validation passed." else "PR validation failed.";
      && calls == [f, UpdatePRStatus(f.owner, f.repo, f.number, state, description)]
                  + (if passed then [] else [ClosePullRequest(f.owner, f.repo, f.number)])
      && |writes| == 2 + |files|
      && writes[0] == Summary(f.number, state) && writes[1] == FilesHeading
      && forall i | 0 <= i < |files| :: writes[2 + i] == FileEntry(files[i])
  {
    calls := [];
    if payload.Unparsable? {
      writes := [ParseFailed];
      return;
    }
    var ev := payload.event;

    if ev.action != Opened {
      writes := [Ignoring(ev.action)];
      return;
    }

    var prNumber := ev.pullRequestNumber;
    if prNumber == 0 {
      prNumber := ev.number;
    }
    if prNumber == 0 {
      writes := [NoNumber];
      return;
    }

    var owner, repo := ev.ownerLogin, ev.repoName;
    calls := calls + [FetchPRFiles(owner, repo, prNumber)];
    var fetched := gh.fetchPRFiles(owner, repo, prNumber);
    if fetched.Err? {
      writes := [FetchFailed];
      return;
    }
    var files := fetched.value;

    var validationPassed := ValidatePR(files);
    var status := "success";
    var description := "PR validation passed.";
    if !validationPassed {
      status := "failure";
      description := "PR validation failed.";
    }
    // an error from either call below is only logged
    calls := calls + [UpdatePRStatus(owner, repo, prNumber, status, description)];
    var err := gh.updatePRStatus(owner, repo, prNumber, status, description);
    if !validationPassed {
      calls := calls + [ClosePullRequest(owner, repo, prNumber)];
      err := gh.closePullRequest(owner, repo, prNumber);
    }

    writes := [Summary(prNumber, status), FilesHeading];
    for i := 0 to |files|
      invariant |writes| == 2 + i
      invariant writes[0] == Summary(prNumber, status) && writes[1] == FilesHeading
      invariant forall j | 0 <= j < i :: writes[2 + j] == FileEntry(files[j])
    {
      writes := writes + [FileEntry(files[i])];
    }
  }

  /**
    With `validatePR` as written, every opened pull request whose files are
    fetched is reported as a failure and then closed, whatever the files and
    whatever the status update answers.
  */
  method OpenedAndFetchedIsClosed(payload: Payload, gh: GitHub) returns (writes: seq<Write>, calls: seq<Call>)
    ensures Proceeds(payload) && Fetched(gh, payload.event).Ok? ==>
      var f := FetchCall(payload.event);
      && calls == [f, UpdatePRStatus(f.owner, f.repo, f.number, "failure", "PR validation failed."),
                   ClosePullRequest(f.owner, f.repo, f.number)]
      && |writes| >= 2 && writes[0] == Summary(f.number, "failure")
      && Text(writes)
         == "PR #" + FormatInt(f.number) + SummaryMiddle + "failure" + "\n" + "Files changed in PR:\n"
            + Text(writes[2..])
  {
    writes, calls := HandleWebhook(payload, gh);
    if Proceeds(payload) && Fetched(gh, payload.event).Ok? {
      ValidationNeverPasses(Fetched(gh, payload.event).value);
      ReportText(writes, FetchCall(payload.event).number, "failure");
    }
  }

  /**
    The end-to-end scenario of an opened pull request 42 of acme/repo whose
    only changed file is "forbidden.txt": the response starts with the report
    of a failure and the pull request is closed, whatever the status update
    and the close answer.
  */
  method ForbiddenFileScenario(statusAnswer: Result<()>, closeAnswer: Result<()>) {
    var ev := PREvent(Opened, 0, 42, "repo", "acme");
    var gh := GitHub(
      (owner, repo, n) => Ok([PRFile("forbidden.txt", 1, 0, 1)]),
      (owner, repo, n, state, description) => statusAnswer,
      (owner, repo, n) => closeAnswer);
    var writes, calls := HandleWebhook(Parsed(ev), gh);
    assert calls == [FetchPRFiles("acme", "repo", 42),
                     UpdatePRStatus("acme", "repo", 42, "failure", "PR validation failed."),
                     ClosePullRequest("acme", "repo", 42)];
    assert FormatInt(42) == "42";
    ReportText(writes, 42, "failure");
    assert Text(writes) == "PR #" + "42" + SummaryMiddle + "failure" + "\n" + "Files changed in PR:\n"
                           + Text(writes[2..]);
  }
}
