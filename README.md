# commitvalidator: the webhook's decision logic in Dafny

The commit validator is an HTTP endpoint that receives pull-request events from
GitHub. For a newly opened pull request it:

1. fetches the list of changed files;
2. validates the list;
3. posts a commit status (`success` or `failure`, context `commitvalidator`);
4. closes the pull request when validation failed;
5. answers with a plain-text summary.

Every request whose body can be read gets a 200 answer with a plain-text body.

This project models the request-handling decisions of `main.go`. The network,
HTTP and JSON are abstracted away:

- `decimal.dfy`, module `Decimal`: how Go's `%d` writes an integer, with a
  parser that reads it back.
- `commitvalidator.dfy`, module `CommitValidator`:
  - the validator `ValidatePR`;
  - the handler `HandleWebhook`.

The handler takes two inputs:

- a `Payload`: the decoded event, or `Unparsable` when decoding failed;
- a `GitHub` record of oracle functions: what the platform answers to each
  outbound call for given arguments.

It returns two outputs:

- `writes`: its writes to the response, in order. Each `Write` is one
  `fmt.Fprintf`, and `Render` gives its text. The response body is
  `Text(writes)`.
- `calls`: its outbound calls, in order: `FetchPRFiles`, `UpdatePRStatus`,
  `ClosePullRequest`, each with its owner, repository, number and (for the status)
  state and description.

The handler is a method that assigns its locals step by step, as the Go code
does. The list of changed files is written by a loop. Its contract gives the
response and the call trace for every path: undecodable payload, ignored action,
missing number, failed fetch, and completed validation. The trace does not
depend on the answers to the status update or the close. Those errors are only
logged, so a failed status update still leads to the close.

`validatePR` returns `false` when it finds `forbidden.txt` (main.go:122). It
also returns `false` after the scan (main.go:125). The comment at main.go:119
describes only the first rule. The model follows the code:
`ValidationNeverPasses` proves that validation never passes.
`OpenedAndFetchedIsClosed` combines this with the handler's contract: every
opened pull request whose files are fetched is reported as `failure` and then
closed. The handler's contract is stated for both outcomes of validation, so it
stays correct if the default changes.

`ForbiddenFileScenario` calls `HandleWebhook` on pull request 42 of `acme/repo`,
whose only changed file is `forbidden.txt`, and asserts three facts. The
verifier proves them for any answers to the status update and the close:

- the calls are the fetch, a `failure` status and a close for 42;
- `%d` writes 42 as `42`;
- the body begins `PR #42 validation complete. Status: failure`, a newline and
  `Files changed in PR:`, followed by the text of the remaining writes.

## Model

| member | source | states |
|---|---|---|
| `Decimal.Digits` | main.go:109 | the digits of a natural number: non-empty, all decimal digits, no leading zero |
| `Decimal.FormatInt` | main.go:109 | `%d` of an int: non-empty, starts with `-` exactly for negatives and with a digit otherwise, digits after the first character, no leading zero before or after the sign |
| `Decimal.FormatRoundTrip` | main.go:109 | parsing what `%d` writes gives back the number |
| `Decimal.FormatInjective` | main.go:109 | distinct numbers are written differently |
| `Decimal.FormatDelimited` | main.go:109 | a number written by `%d` and followed by a non-digit can be read back from the combined text: equal texts mean equal numbers and equal rest |
| `CommitValidator.ValidatePR` | main.go:117-126 | the scan as written, with both exits `false`; no contract of its own, see `ValidationNeverPasses` |
| `CommitValidator.ForbiddenFileFails` | main.go:120-123 | a file list with some file named exactly `forbidden.txt` fails validation |
| `CommitValidator.CleanListFails` | main.go:120-125 | a file list with no such file, the empty list included, fails validation as well (the return after the loop is `false`) |
| `CommitValidator.ValidationNeverPasses` | main.go:117-126 | `validatePR` as written returns `false` for every file list |
| `CommitValidator.ResolveNumber` | main.go:61-64 | the pull request's number is `pull_request.number` when non-zero, otherwise the top-level `number`; it is 0 exactly when both are 0 |
| `CommitValidator.Render` | main.go:50-112 | the text of each write: the parse-failure, ignored-action, missing-number and fetch-error messages without a trailing newline (main.go:50, 57, 67, 79), the summary line, the heading and one line per file with its additions, deletions and changes (main.go:109-112) |
| `CommitValidator.SummaryIdentifies` | main.go:109 | the summary line `PR #n validation complete. Status: s` determines both `n` and `s` |
| `CommitValidator.ReportText` | main.go:109-113 | a response whose first writes are the summary and the heading reads `PR #n validation complete. Status: s`, a newline, `Files changed in PR:`, a newline, then the text of the remaining writes |
| `CommitValidator.HandleWebhook` | main.go:47-113 | undecodable payload: the parse message and no calls. Action not `opened` (checked before the number): the `Ignoring…` message with the action and no calls. No number: `No PR number found` and no calls. Otherwise the fetch comes first and every call targets the event's owner, repository and resolved number. Failed fetch: `Error fetching PR files` and nothing else. Successful fetch: exactly one status update with `success`/`PR validation passed.` when validation passes and `failure`/`PR validation failed.` otherwise, then a close exactly when validation failed. Then the summary with the number and state, the heading, and one line per file in fetch order |
| `CommitValidator.OpenedAndFetchedIsClosed` | main.go:88-113 | with `validatePR` as written, an opened pull request whose files are fetched gets a `failure` status and is then closed, and the body begins with the summary for its number and `failure` followed by the heading, whatever the status update answers |

## Left out

- Reading the request (main.go:14-31): the form or raw-JSON choice, `ParseForm`, `ReadAll`, and the 400/500 answers on their errors. The model starts from the decoded payload.
- JSON decoding of the event (main.go:34-47) and of the API answers. The event is given already decoded, with absent fields at their zero values, or as `Unparsable`. A number that does not fit Go's `int` (64 bits on 64-bit targets) makes decoding fail, which is an `Unparsable` payload here; decoded numbers are unbounded integers.
- The bodies of `fetchPRFiles`, `updatePRStatus` and `closePullRequest` (main.go:128-212, 226-255): URLs, headers, the `GITHUB_TOKEN` environment variable, status-code checks and the head-SHA lookup. They are network I/O; the model has only their arguments (the trace) and their answers (the `GitHub` oracles).
- Logging with `log.Printf`, including the loop that logs each changed file (main.go:82-85) and the error messages of failed calls. Logging does not affect the response or the calls.
- Errors returned by `fmt.Fprintf` are ignored by the source and are not modelled.
- `PRFile` fields other than `filename`, `additions`, `deletions` and `changes` (main.go:220-223), which nothing in the handler reads. Pagination of the file list is not modelled: the fetch answers with one list.
- `main` and the server loop (main.go:257-262).
