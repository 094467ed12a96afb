# serv00 / ct8 panel login script — a Dafny model of its decision logic

The script logs into a list of serv00.com and ct8.pl hosting control panels
with a headless browser and reports, one line per account, whether each login
worked. Under the browser plumbing sit small pieces of decision logic. This
project models them as pure functions over plain datatypes and proves their
properties:

- **Accounts** (`accounts.dfy`): the panel host, the login URL and the server
  label derived from an account. `ct8.pl` is special-cased. A missing or empty
  domain falls back to `serv00.com`, as JavaScript's `domain || defaultDomain`
  does.
- **Selectors** (`selectors.dfy`): first-match resolution of the username
  input (5 candidates) and the password input (3 candidates). The page is
  abstracted to the selectors whose lookup finds an element and the selectors
  whose lookup rejects. The search stops at the first lookup that does
  either; a rejection's message becomes the task's error.
- **Forms** (`forms.dfy`): choosing what to submit. The search skips
  language-switch forms and takes the first form holding a username input.
  Otherwise it falls back to the first submit button, but only if that button
  sits in a form whose action avoids `/lang/`. Otherwise it fails with the
  wrapped error message.
- **Classifier** (`classifier.dfy`): the ordered evidence used after
  submission. A logout link comes first, then a URL without `login`, then the
  text of the first error element. A probe that throws means failure.
- **Session** (`session.dfy`): one account's task, from navigation to the
  report line. Navigation, the two input lookups, typing and the submit
  step's `page.evaluate` may throw, and the first failing step decides the
  message. The classifier catches its own failures and answers no.
- **Batching** (`batching.dfy`): the tasks are split into consecutive slices of
  `concurrency` (2 in the script). There is a pause between batches and none
  after the last. Lines within a batch are appended in an unspecified
  completion order.
- **Report** (`report.dfy`): the title line plus the collected lines, joined by
  newlines. `RunAll` ties the whole flow together.
- `results.dfy` holds `Option`/`Result`. `strings.dfy` holds `includes`,
  `join`, and its inverse `Split`.

Parameters stand in for the browser. A `Scenario` says, for one account, what
the panel does:
- whether navigation throws;
- which selector lookups find an element and which reject;
- whether typing throws;
- whether the submit step's `page.evaluate` call rejects;
- the forms and the first submit button;
- what the classifier observes afterwards.

Completion order inside a batch is a per-batch permutation argument.

The script's behaviour, as modelled:
- The classifier has three checks: the logout link, the URL, and the first
  error element.
- The main flow has no retry loop.
- The report is a plain join with no success/failure tally.
- There is no exit-code logic.
- The submit fallback is only the first `button[type="submit"]`, and only
  inside a form whose action avoids `/lang/`.

## Model

| member | source | states |
|---|---|---|
| Strings.IncludesIsOccurs | src/main.js:119 | `includes` as scanned is exactly the substring relation (used for `/lang/` and `login` tests) |
| Strings.SplitJoin | src/main.js:267 | joining with `\n` loses nothing: splitting a join of newline-free parts gives the parts back |
| Strings.JoinSplit | src/main.js:267 | conversely, joining the pieces of any split restores the string |
| Accounts.EffectiveDomain | src/main.js:200 | an absent or empty domain falls back to `serv00.com`, otherwise the domain is used; never empty |
| Accounts.ServerName | src/main.js:237 | the label is `ct8` exactly when the domain is `ct8.pl`; otherwise it is `serv00-` followed by the panel number |
| Accounts.HostShape | src/main.js:196-201 | host is `panel.ct8.pl` for ct8.pl, else `panel<panelnum>.<domain or serv00.com>` |
| Accounts.HostRoundTrip | src/main.js:203 | the URL is `https://` + host + `/login/?next=/`: the host is recovered from the URL |
| Accounts.Ct8IgnoresPanelNumber | src/main.js:197-198 | on ct8.pl the panel number does not affect the URL |
| Accounts.PanelNumberSelectsPanel | src/main.js:199-203 | on one ordinary domain, distinct panel numbers give distinct login URLs |
| Accounts.LoginUrlMentionsLogin | src/main.js:203 | every login URL contains `login` |
| Selectors.FirstIndex | src/main.js:65-71 | the returned index is the earliest satisfying the probe; `None` only when nothing does |
| Selectors.Resolve | src/main.js:64-75 | the search stops at the first candidate, in declared order, whose lookup finds an element (that selector is chosen) or rejects (its message is passed on); not found exactly when no lookup does either |
| Selectors.FirstMatchUnique | src/main.js:65-71 | once an earlier candidate matches, no later one can be the first match |
| Selectors.EarlierCandidateWins | src/main.js:65-71 | a match at position i means the resolved selector sits at i or earlier |
| Selectors.ResolveLoginFields | src/main.js:56-95 | a rejected lookup's message is the error; username missing gives the username error; username found but password missing gives the password error; success exactly when both are found, with both first matches |
| Forms.ChooseLoginForm | src/main.js:114-127 | the chosen form has no `/lang/` action, no truthy `data-language-form`, holds a username input, and every earlier form fails one of these; none chosen only when every form fails |
| Forms.SubmitLogin | src/main.js:110-149 | submits the first login form; otherwise clicks the button exactly when it sits in a form whose action lacks `/lang/`; otherwise fails with the wrapped message |
| Forms.NeverSubmitsLanguageSwitch | src/main.js:117-141 | nothing submitted or clicked belongs to a form whose action contains `/lang/`; a submitted form carries no truthy `data-language-form` |
| Forms.FallbackIgnoresLanguageAttribute | src/main.js:134-142 | the fallback checks only the action: on any page without a login form, a button in a `data-language-form` form without `/lang/` is still clicked |
| Classifier.Classify | src/main.js:151-178 | each verdict holds exactly when its evidence is the first conclusive one; an error verdict carries the non-empty text found |
| Classifier.CheckLoginSuccess | src/main.js:151-178 | success iff logout link, or no logout link and (URL without `login`, or no or empty error text) |
| Classifier.LogoutLinkWins | src/main.js:154-157 | a logout link means success whatever the URL and error probes say or throw |
| Classifier.LeavingLoginPageWins | src/main.js:160-163 | without a logout link, a URL free of `login` means success whatever the error probe gives |
| Classifier.ErrorTextDecides | src/main.js:166-174 | still on a `login` URL, success iff the error probe returns no (or empty) text |
| Classifier.ProbeFailureMeansFailure | src/main.js:175-177 | a probe that throws before a conclusive signal means failure |
| Classifier.StayingOnLoginUrl | src/main.js:161 | a page still at the account's login URL succeeds only via the logout link or absent error text |
| Session.RunTask | src/main.js:213-246 | logged in / rejected exactly when every step went through and the classifier said yes / no; otherwise the first failing step's message: navigation, a rejected lookup, a missing input, typing, or the submit step with its prefix (src/main.js:146-148) |
| Session.ResultLine | src/main.js:237-245 | every line, success or error, starts with the same `账号（user）（label）` header |
| Session.DecodeResultLine | src/main.js:240-245 | a line determines the outcome it reports: success, failure, and error lines never coincide |
| Session.TaskLine | src/main.js:193-251 | one task gives one line, with the account's header, from which its run's outcome is read back |
| Batching.BatchesCover | src/main.js:254-256 | the batches, concatenated, are the task list |
| Batching.BatchSizes | src/main.js:254-255 | every batch has 1..c tasks and only the last may be shorter than c |
| Batching.BatchCount | src/main.js:254 | the batch count is the least k with n <= k·c |
| Batching.BatchIsSlice | src/main.js:254-255 | batch k is the slice starting at k·c, clamped to the list end |
| Batching.FiveTasksInPairs | src/main.js:192 | five tasks at concurrency 2 give batch sizes 2, 2, 1 |
| Batching.PausesBetweenBatches | src/main.js:258-262 | the schedule has batches−1 pauses and ends with a batch, never a pause |
| Batching.RunBatches | src/main.js:254-263 | every task appends exactly one entry with its own line; earlier batches' entries precede later ones'; steps alternate batch/pause |
| Report.RenderSplits | src/main.js:266-268 | the report reads back as the title followed by one row per line |
| Report.RunAll | src/main.js:189-268 | one line per account, each the line of that account's own run, batch order kept; the report is the title, a newline, and those lines joined by newlines, and reads back as title plus lines when no line holds a newline |

## Left out

- Browser I/O is not modelled: launching Puppeteer, opening and closing pages, `page.goto`, the `waitForNavigation`/`delayTime` race and the fixed waits. A navigation failure is an input message, and the settled page is an input observation.
- Clearing and typing into the fields is not modelled (src/main.js:97-107). It is a DOM side effect; only its possible failure is an input.
- Sending the report to Telegram is not modelled (src/main.js:43-52); it is a network client.
- Reading `accounts.json` and the environment is not modelled (src/main.js:181-184); the accounts are an input sequence.
- The retry fragment `loginWithRetry` is not modelled (src/main.js:1-29). It is cut off mid-function and refers to names not in its scope.
- `formatToISO` is not modelled; it is unused and depends on `Date`.
- The random inter-batch delay value is floating point and random. Only its position is modelled, as a `Paused` step.
- Concurrency inside a batch is reduced to a completion order, given per batch as a permutation.
- A failure of `puppeteer.launch` or of the closing calls would make `Promise.all` reject and stop the run. Those calls are outside the `try`, so this path is not modelled.
- Console logging is not modelled.
- Accounts.Account: `panelnum` is kept as the text the template literal renders, and `domain` as an optional string. A JSON number, `null` or a non-string domain is not distinguished beyond that; any non-empty non-string domain would be used as is.
- Classifier.Observation: `page.url()` is taken as a plain value that cannot throw. `textContent` of the first error element is taken as a string.
