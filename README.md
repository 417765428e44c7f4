# CodeReview AI, modelled in Dafny

CodeReview AI is a browser extension that reviews GitHub pull requests and
GitLab merge requests with the browser's on-device language model. It has
three parts:

- The **page script** (`content.js`) recognises pull request pages and reads
  the title, description and diff off the page. It sends them to the worker
  and stores what comes back.
- The **service worker** (`background.js`) checks the availability of the
  language model and the summarizer, asks for the review and a summary, and
  answers follow-up questions with a prompt built from the review and the
  recent exchanges.
- The **side panel** (`sidebar.js`) shows the stored result, formats the
  review's markdown into HTML after escaping it, polls while a model
  downloads, and keeps the question thread.

The project models each of these, as follows:

- **Decisions as functions.** Every decision the three parts take over
  statuses, replies and texts is a function whose contract states the
  branch taken.
- **Stateful code as classes and methods.** The page script's flags and the
  panel's module state are classes whose methods change their fields. Each
  method states its new state, sometimes through a function that specifies
  it.
- **The worker's handlers as methods.** They fill the response field by
  field, and they return the trace of the backend calls they made.
- **The formatter as passes over symbols.** It is a chain of passes, and
  each character carries its origin: review text, or markup inserted by a
  pass. This lets the model state, and prove, that every angle bracket of
  the formatted review is inserted markup.

Modules:

- `text.dfy`: string primitives of JavaScript (`trim`, `slice`, `includes`,
  `lastIndexOf`, `join`, decimal numerals, `slice(-n)`).
- `types.dfy`: the records exchanged, and `chrome.storage.local` as a record
  of keys.
- `escape.dfy`: `escapeHtml`.
- `formatter.dfy`: `formatCodeReview`.
- `keywords.dfy`: the keyword passes and their guard.
- `background.dfy`: the service worker.
- `content.dfy`: the page script.
- `sidebar.dfy`: the side panel.
- `flows.dfy`: how the responses of the worker travel through the page
  script to the panel.

## Model

| member | source | states |
|---|---|---|
| `Text.Trim` | content.js:156 | `String.prototype.trim`: the result is the input from its first non-space character on, everything after it is white space or line terminators, it ends in a non-space character, and it is empty exactly when the input is all white space |
| `Text.Take` | content.js:161 | `slice(0, n)`: a prefix of the input, all of it when it is shorter than `n` and `n` characters otherwise |
| `Text.IndexOf` | content.js:9-10 | `indexOf`: the first occurrence, or -1 exactly when there is none |
| `Text.ContainsIff` | content.js:120 | `includes` holds exactly when the pattern occurs somewhere |
| `Text.MissingChar` | content.js:120 | a text lacking one character of the pattern does not contain it |
| `Text.LastIndexOf` | sidebar.js:208 | `lastIndexOf`: the last occurrence, or -1 exactly when there is none |
| `Text.Lower` | sidebar.js:205 | case folding of the `i` flag: an ASCII capital becomes the small letter 32 code points above it, every other character is kept, and the length is kept |
| `Text.DecimalString` | background.js:258 | the numeral of `${idx + 1}` is non-empty, made of digits, without a leading zero |
| `Text.DecimalRoundTrip` | background.js:258 | reading the numeral back gives the number |
| `Text.JoinEmpty` | content.js:161 | `join('\n')` is empty exactly for no items or one empty item |
| `Text.LastN` | sidebar.js:389 | `slice(-3)`: the last `min(n, 3)` items, in their order |
| `Text.ConcatMapSnoc` | sidebar.js:438-451 | appending one more exchange appends its HTML after the earlier ones |
| `Types.Merge` | content.js:109-113 | `storage.local.set`: each of the three keys takes the patch's value when the patch sets it and keeps the stored one otherwise |
| `Escape.EscapeChar` | sidebar.js:335-339 | `&`, `<`, `>` and U+00A0 become entities and every other character, quotes included, is kept |
| `Escape.EscapeHtml` | sidebar.js:335-339 | the escaped text holds no `<`, `>` or U+00A0, and every `&` in it opens an entity |
| `Escape.UnescapeEscape` | sidebar.js:335-339 | decoding the four entities gives the text back: escaping loses nothing |
| `Escape.EscapeAppend` | sidebar.js:335-339 | escaping works character by character: it distributes over concatenation |
| `Formatter.FenceAt` | sidebar.js:174 | a fence matches exactly when the regex admits one: three backticks, a run of word characters that is dropped, a newline, a body and three backticks; the body is the shortest one |
| `Formatter.InlineCodeAt` | sidebar.js:176 | inline code matches exactly when a backtick is followed by one or more characters that are not backticks and a closing backtick, which are wrapped |
| `Formatter.HeaderAt` | sidebar.js:178 | a header matches exactly at a line start holding `## ` and a non-empty rest of the line, and that rest, up to the line terminator, is its only possible heading |
| `Formatter.LineEnd` | sidebar.js:178 | `.+$` of a multiline pattern stops at the first line terminator |
| `Formatter.BoldAt` | sidebar.js:180 | bold matches exactly when `**`, a non-empty text on one line and `**` follow; of all such texts the shortest is taken |
| `Formatter.NumberedAt` | sidebar.js:185 | a numbered item matches exactly at a line start with digits, a dot, white space and a non-empty rest of the line; the greedy white space makes the item start as late as possible |
| `Formatter.BulletAt` | sidebar.js:187 | a bullet item matches exactly at a line start with `•` or `-`, white space and a non-empty rest of the line, starting the item as late as possible |
| `Formatter.ItemEnd` | sidebar.js:194 | one item of a grouping pattern is its opening tag, the text up to the first `</li>` after it, that tag, and all the white space that follows |
| `Formatter.GroupAt` | sidebar.js:194-198 | a group starts exactly where an item of its kind starts, wraps a chain of items each starting where the one before ends, and stops only where no item of that kind follows |
| `Formatter.ItemsEnd` | sidebar.js:195 | the `+` of a grouping pattern takes the chain of items from its start up to the first point where no further item starts |
| `Formatter.KeywordAt` | sidebar.js:205-212 | a keyword match is the whole word at its index and is written back unchanged inside code |
| `Formatter.Scan` | sidebar.js:172-229 | one global replacement brings in no review text: if the input has no angle bracket of review text, neither has the output |
| `Formatter.ScanCopiesUntilMatch` | sidebar.js:172-229 | a global replacement copies the text unchanged up to the first index where its pattern matches, and leaves a text where it matches nowhere as it is |
| `Formatter.Run` | sidebar.js:172-229 | the chain of replacements keeps every angle bracket of review text out, whatever the passes |
| `Formatter.Formatted` | sidebar.js:167-232 | the escaped review run through every pass holds no angle bracket that came from the review |
| `Formatter.FormatCodeReview` | sidebar.js:167-232 | the HTML is, character for character, the formatted review; escaping comes first, so every `<` and `>` in it is markup that a pass inserted |
| `Formatter.InsertingPassKeepsText` | sidebar.js:194-229 | the grouping and keyword passes only insert tags: removing them gives the input back |
| `KeywordTags.WholeWordIsAlternative` | sidebar.js:205 | a whole word at a word start matches itself, folded, as an alternative |
| `KeywordTags.AlternativeIsWholeWord` | sidebar.js:205 | an alternative matched with boundaries is the whole word there |
| `KeywordTags.KeywordIsAlternative` | sidebar.js:205 | matching the whole word against the list is the same as trying the alternatives with `\b` around them |
| `KeywordTags.KeywordMatch` | sidebar.js:205-212 | the match at an index is the whole word, tagged exactly when it is outside code |
| `KeywordTags.KeywordPassIsCharacterwise` | sidebar.js:204-229 | a keyword pass wraps exactly the keywords outside code in their span, keeping their spelling, and changes nothing else |
| `KeywordTags.OpenCodeGuards` | sidebar.js:207-210 | after a `<code` that no `</code>` follows, keywords are left alone |
| `KeywordTags.NoCodeNoGuard` | sidebar.js:207-212 | with no `<code` or `<pre` before it, a keyword is tagged |
| `Background.CheckAIAPIs` | background.js:297-335 | no API gives both statuses unavailable and the error; a status check that throws gives that message; otherwise the two statuses are what `availability()` returned, a missing summarizer reads as unavailable, `ready` iff either is available or downloadable and `downloading` iff either is downloading |
| `Background.NotReadyMeansUnavailable` | background.js:320-326 | neither ready nor downloading means both statuses are unavailable |
| `Background.StatusError` | background.js:186-190 | the error recorded for a status: none exactly when the model is available, the downloading message for a download in progress, and `AI not ready. Status: <s>` for any other status |
| `Background.ReviewExcerpt` | background.js:250 | a review of at most 1500 characters is kept whole and a longer one is cut to its first 1500 characters; no review gives `No review available` |
| `Background.HandlePRAnalysis` | background.js:51-220 | the response for each status and failure: a downloadable model returns early with the first-download error and no summarizer call; success carries the prompt's answer exactly when the model is available and the summary exactly when one is wanted; any exception, from the status checks, the prompt or the summarizer, gives the failure response with its message in both places |
| `Background.HistoryInOrder` | background.js:255-260 | the history is numbered Q1/A1… in its order, entry `i` as number `i + 1` |
| `Background.NumberedSnoc` | background.js:257-259 | appending an exchange appends its block, numbered one past the others |
| `Background.ContextPrompt` | background.js:243-266 | the follow-up prompt opens with the pull request and the review excerpt, ends with the question, and has a history section exactly when there are exchanges |
| `Background.BuildContextPrompt` | background.js:243-272 | the `forEach` builds the prompt of head, history section (omitted when empty) and question |
| `Background.HandleQuestionAnswer` | background.js:223-287 | any status other than available fails with `AI not ready. Status: <s>` and no session; otherwise the context prompt is sent and its answer returned; every failure gives its message, and a throwing prompt call replies with the thrown message |
| `Content.IsPRPage` | content.js:9-12 | a page is handled iff it is `github.com` with `/pull/` or `gitlab.com` with `/-/merge_requests/` somewhere in its path |
| `Content.GitHubPullPage` | content.js:9 | every pull request path on GitHub is handled |
| `Content.GitLabMergePage` | content.js:10 | every merge request path on GitLab is handled |
| `Content.ExtractPRData` | content.js:147-181 | the diff is never empty and at most 10000 characters; title and description are the trimmed element texts |
| `Content.ExtractedDiff` | content.js:161-177 | the placeholder stands in exactly when the joined lines are empty; otherwise the diff is their prefix, all of it up to 10000 characters |
| `Content.ErrorOf` | content.js:115-117 | the message is the top-level error when it is non-empty, otherwise the results' error when that is non-empty, otherwise none |
| `Content.Classify` | content.js:107-138 | a success is a review; a failure whose message holds `downloading` awaits the download with that message; another message is a failed analysis with that message; it is no reply exactly when the response is missing or a failure carries no message; a thrown error is kept with its message |
| `Content.WrittenKeys` | content.js:107-129 | only a success stores the review, the pull request and an empty thread; a download message stores the result alone; nothing else is stored |
| `Content.NoticeFor` | content.js:114-139 | a success notice only for a review, an info notice only for a download, an error notice otherwise; the texts of a failed analysis, of the two known connection errors and of any other exception |
| `Content.ContentScript.CheckAvailability` | content.js:19-29 | a warning exactly when the worker reports the AI is not ready |
| `Content.ContentScript.Click` | content.js:75-105 | a click while analysing does nothing; otherwise the button turns busy and the extracted pull request is sent |
| `Content.ContentScript.Receive` | content.js:107-143 | one notification for the classified reply, the outcome's storage write, and the button idle again in every case |
| `Sidebar.ViewOf` | sidebar.js:105-159 | loading, download (error holding `downloading`), error, empty results or review, with the sections shown exactly when their text is non-empty |
| `Sidebar.Displayed` | sidebar.js:105-165 | a finished review becomes the question context and nothing else changes it; a download view starts exactly one new poll timer and leaves the earlier ones alone; the question section is shown iff it was shown or a finished review has a code review |
| `Sidebar.AnswerError` | sidebar.js:416-421 | the error shown for a failed question is the worker's, the fallback, or `Error: ` and the thrown message, and is never empty |
| `Sidebar.Rendered` | sidebar.js:429-451 | the prompt exactly for an empty history, otherwise every exchange in order |
| `Sidebar.Panel.DisplayReview` | sidebar.js:105-165 | the panel's screen becomes `Displayed` of the old one, and only a finished review becomes the question context |
| `Sidebar.Panel.PollTick` | sidebar.js:283-304 | a set timer that sees the model available clears itself and shows the ready view; anything else changes nothing |
| `Sidebar.Panel.RenderQAHistory` | sidebar.js:429-454 | the prompt for an empty history, otherwise every exchange in order |
| `Sidebar.Panel.OnStorage` | sidebar.js:27-52 | a stored result is displayed, a pull request replaces the current one, and a thread replaces the history and is rendered |
| `Sidebar.Panel.Ask` | sidebar.js:357-392 | an empty trimmed question does nothing; more than 500 characters or no review gives an error; otherwise the question goes with the pull request, the code review and the last three exchanges, and the inputs are disabled |
| `Sidebar.Panel.Answer` | sidebar.js:393-426 | an answer appends exactly one exchange at the end and stores the thread; a failure shows its error and leaves the history alone; the inputs are enabled again either way |
| `Flows.DownloadMarkers` | background.js:76 | both download messages of the worker hold the `downloading` marker the page script and the panel test |
| `Flows.FirstDownloadFlow` | content.js:115-123 | a first download is announced by the page and shown as a download with a new poll timer by the panel |
| `Flows.DownloadingReviewFlow` | background.js:186-212 | a model still downloading gives a success the page announces as a complete review and stores with the new pull request and an empty thread, while the panel shows the download message and keeps its previous review, so a follow-up question pairs the new pull request with the old review |
| `Flows.UnavailableReviewFlow` | sidebar.js:112-118 | an unavailable model reaches the panel as an error, with no poll timer |
| `Flows.FailureFlow` | content.js:115-126 | a failure response of the worker reaches storage only when its message holds `downloading`, and the panel then shows that message as a download and keeps its question context; any other failure is only a notice, and one with an empty message reads as no reply |
| `Flows.ReviewResetsThread` | content.js:107-113 | a successful review stores an empty thread with the pull request, and the panel renders the prompt for a new question |
| `Flows.ShownReviewIsSafe` | sidebar.js:141-148 | the HTML of the code review the panel shows is the formatted review character for character, and every angle bracket in it was inserted by the formatter |

## Left out

- Messaging, storage and the side panel API (`chrome.runtime`, `chrome.storage`, `chrome.sidePanel`) are parameters of the model. A reply is a `Call` value that returned or threw. A storage write is a returned patch, and a change event is the `Store` given to `OnStorage`.
- Key removal is not modelled; no part of the extension removes keys.
- Browser timers are left out: the keep-alive interval, navigation observers, button injection retries and notification fades. Each firing of a poll timer is one `PollTick` call, with no claim about how many timers are set.
- The DOM is left out. The page is the texts of its elements (`PageText`), and a view is a `View` value recording the texts it shows. Only the exchange HTML (`ExchangeHtml`, `ThreadHtml`) and the review sections (`SectionsHtml`) are written out as HTML strings.
- `Sidebar.Panel.RenderQAHistory`: the thread records the exchanges it shows, and `ThreadHtml` gives their HTML. The string that the `forEach` builds with `+=` is not built in the method.
- The status line and labels of the panel (`checkAPIStatus`, `updateCharCount`), and the collapsing of the question section, are cosmetic and left out.
- The language model and the summarizer are a `Backend` value: availability statuses, plus the answers of `prompt` and `summarize` as functions of their input.
- The download started in the background for a downloadable model is recorded only as a `StartDownload` step. Its outcome is never awaited.
- Sessions being destroyed is left out.
- The prose of the review and follow-up prompts is left out. Only their interpolated parts and truncations are modelled.
- The CSS `style` attributes of the inserted tags are dropped. The `list-style-type: decimal;` that the grouping passes key on is kept.
- The italic passes, the emoji spans and the `</h3><br>` clean-up of `formatCodeReview` are left out. Downstream this changes the keyword passes: in the source `_bug_` becomes `<em>bug</em>` (sidebar.js:182) and the bug pass then tags the word, while in the model the underscores stay, `\b` does not hold before `bug`, and the word is not tagged.
- A character is one UTF-16 code unit in JavaScript and one Unicode scalar value here. Lengths and cuts of text outside the Basic Multilingual Plane differ.
- `Content.ContentScript.Click`: the empty-diff guard after `extractPRData` is not modelled. `ExtractPRData` never returns an empty diff, so that branch cannot run.
- A thrown `extractPRData` is left out; it only reads element texts.
- `Sidebar.Panel.Answer`: a successful reply without an `answer` is recorded with an empty answer. In the source the entry holds `undefined`.
- The textarea contents, their clearing and the scroll position are DOM state and are left out.
- `Background.HandlePRAnalysis` follows the code where the extension's documented design differs: a summarizer that throws fails the whole analysis, because one `try` covers both calls.
- A `history` that is not an array and a review that is not a string are not modelled. The model's types rule them out.
