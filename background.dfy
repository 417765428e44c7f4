/**
 * The service worker (background.js): the availability report, the
 * analysis of a pull request and the answer to a follow-up question. The
 * browser's on-device AI is a `Backend` value: which globals exist, what
 * `availability()` reports, and what the language model and the
 * summarizer answer for a given input. The calls the worker makes on it,
 * in order, are returned as a trace.
 */
module Background {
  import opened Text
  import opened Types

  /** What the service worker can see of the on-device AI. */
  datatype Backend = Backend(
    hasAI: bool,                      // `typeof ai !== 'undefined'`
    hasLanguageModel: bool,           // `typeof LanguageModel !== 'undefined'`
    hasSummarizer: bool,              // `typeof Summarizer !== 'undefined'`
    aiSummarizer: bool,               // `ai.summarizer` is set
    promptStatus: Call<Status>,       // `languageModelAPI.availability()`
    summarizerStatus: Call<Status>,   // `summarizerAPI.availability()`
    prompt: string -> Call<string>,   // `create()` a session, then `prompt(text)`
    summarize: string -> Call<string>) // `create(...)` a summarizer, then `summarize(text)`

  /** A call the worker makes on the backend. */
  datatype Step = CheckPrompt | StartDownload | Prompt(text: string) | CheckSummarizer | Summarize(text: string)

  /** Either global of the language model exists. */
  predicate ApiPresent(b: Backend) {
    b.hasAI || b.hasLanguageModel
  }

  /** `typeof Summarizer !== 'undefined' ? Summarizer : (hasAI ? ai.summarizer : null)`
      is truthy. */
  predicate SummarizerPresent(b: Backend) {
    b.hasSummarizer || (b.hasAI && b.aiSummarizer)
  }

  /** A status that lets the worker use (or start downloading) a model. */
  predicate Usable(s: Status) {
    s == Available || s == Downloadable
  }

  // ---------------------------------------------------------------------------
  // checkAIAPIs

  const NoApiReportMessage := "Chrome AI APIs not available. Please enable chrome://flags/#prompt-api-for-gemini-nano-multimodal-input and relaunch Chrome."

  /** The report when the APIs are missing or a check threw. */
  function ErrorReport(m: string): AvailabilityReport {
    AvailabilityReport(Unavailable, Unavailable, false, false, Some(m))
  }

  /** `checkAIAPIs()` (background.js:297-335). A missing summarizer reads as
      `'unavailable'`; a check that throws is reported like missing APIs,
      with the thrown message. */
  function CheckAIAPIs(b: Backend): (r: AvailabilityReport)
    ensures !ApiPresent(b) ==> r == ErrorReport(NoApiReportMessage)
    ensures r.error.Some? ==> r == ErrorReport(r.error.value)
    ensures r.error.None? ==> b.promptStatus.Returned? && r.promptAPI == b.promptStatus.value
    ensures r.error.None? && !SummarizerPresent(b) ==> r.summarizerAPI == Unavailable
    ensures r.error.None? && SummarizerPresent(b) ==>
      b.summarizerStatus.Returned? && r.summarizerAPI == b.summarizerStatus.value
    ensures ApiPresent(b) && b.promptStatus.Threw? ==> r == ErrorReport(b.promptStatus.message)
    ensures ApiPresent(b) && b.promptStatus.Returned? && SummarizerPresent(b) && b.summarizerStatus.Threw? ==>
      r == ErrorReport(b.summarizerStatus.message)
    ensures r.ready <==> Usable(r.promptAPI) || Usable(r.summarizerAPI)
    ensures r.downloading <==> r.promptAPI == Downloading || r.summarizerAPI == Downloading
  {
    if !ApiPresent(b) then ErrorReport(NoApiReportMessage)
    else
      match b.promptStatus
      case Threw(m) => ErrorReport(m)
      case Returned(p) =>
        var summarizer := if SummarizerPresent(b) then b.summarizerStatus else Returned(Unavailable);
        match summarizer
        case Threw(m) => ErrorReport(m)
        case Returned(s) =>
          AvailabilityReport(p, s, Usable(p) || Usable(s), p == Downloading || s == Downloading, None)
  }

  /** A report that is neither ready nor downloading has both models
      unavailable: the four statuses leave no other case. */
  lemma {:induction false} NotReadyMeansUnavailable(b: Backend)
    ensures var r := CheckAIAPIs(b);
      !r.ready && !r.downloading <==> r.promptAPI == Unavailable && r.summarizerAPI == Unavailable
  {
    var r := CheckAIAPIs(b);
    if !r.ready && !r.downloading {
      assert r.promptAPI != Available && r.promptAPI != Downloadable && r.promptAPI != Downloading;
      assert r.summarizerAPI != Available && r.summarizerAPI != Downloadable && r.summarizerAPI != Downloading;
    }
  }

  // ---------------------------------------------------------------------------
  // handlePRAnalysis

  const NoApiMessage := "Chrome AI APIs not available. Please enable chrome://flags/#prompt-api-for-gemini-nano-multimodal-input"
  /** The opening both download messages share. */
  const DownloadingOpening := "AI model is downloading"
  const FirstDownloadMessage := DownloadingOpening + " for the first time. This may take 5-10 minutes. Please check back later."
  const DownloadingMessage := DownloadingOpening + ". This may take 5-10 minutes. Please wait and try again."

  function NotReadyMessage(s: Status): string {
    "AI not ready. Status: " + StatusName(s)
  }

  /** The `error` an analysis records for a status that is not downloadable:
      none when the model is available. */
  function StatusError(s: Status): (r: Option<string>)
    requires s != Downloadable
    ensures r.None? <==> s == Available
    ensures s == Downloading ==> r == Some(DownloadingMessage)
    ensures s != Available && s != Downloading ==> r == Some("AI not ready. Status: " + StatusName(s))
  {
    match s
    case Available => None
    case Downloading => Some(DownloadingMessage)
    case _ => Some(NotReadyMessage(s))
  }

  /** The reply of the `catch` block: the message both at top level and in
      `results`. */
  function Failure(m: string): AnalysisResponse {
    AnalysisResponse(false, Some(m), ErrorResult(m))
  }

  /** The early reply for a model that has yet to be downloaded. */
  const FirstDownloadResponse := AnalysisResponse(false, None, ErrorResult(FirstDownloadMessage))

  /** The interpolated parts of the review prompt (background.js:98-182):
      the title, the description or its placeholder, and the diff. */
  function ReviewPrompt(pr: PRData): string {
    "**Title:** " + pr.title + "\n**Description:** "
      + (if pr.description == "" then "No description provided" else pr.description)
      + "\n\n**Code Changes (Unified Diff Format):**\n" + pr.diff
  }

  /** The text given to the summarizer (background.js:206). */
  function SummaryText(pr: PRData): string {
    pr.title + "\n\n" + pr.description + "\n\nChanges:\n" + pr.diff
  }

  /** The summarizer is asked for a summary: it exists and is available or
      downloadable. */
  predicate SummaryWanted(b: Backend) {
    SummarizerPresent(b) && b.summarizerStatus.Returned? && Usable(b.summarizerStatus.value)
  }

  /** The summarizer part ends without an exception: the summarizer is
      missing, or its check returns and, when a summary is wanted, the
      summary is returned. */
  predicate SummaryOk(b: Backend, pr: PRData) {
    !SummarizerPresent(b) || (b.summarizerStatus.Returned? && (SummaryWanted(b) ==> b.summarize(SummaryText(pr)).Returned?))
  }

  /** The review prompt is sent, and its session is the first thing that
      can throw after the availability check. */
  predicate ReviewAsked(b: Backend) {
    ApiPresent(b) && b.promptStatus == Returned(Available)
  }

  /** The analysis gets past the status branch without an exception. */
  predicate PastStatus(b: Backend, pr: PRData) {
    && ApiPresent(b) && b.promptStatus.Returned? && b.promptStatus.value != Downloadable
    && (ReviewAsked(b) ==> b.prompt(ReviewPrompt(pr)).Returned?)
  }

  /** `handlePRAnalysis(prData, sendResponse)` (background.js:51-220): the
      response sent, and the backend calls made on the way. The `results`
      record is filled field by field as in the source. */
  method HandlePRAnalysis(b: Backend, pr: PRData) returns (resp: AnalysisResponse, trace: seq<Step>)
    ensures !ApiPresent(b) ==> resp == Failure(NoApiMessage) && trace == []
    ensures ApiPresent(b) && b.promptStatus.Threw? ==> resp == Failure(b.promptStatus.message) && trace == [CheckPrompt]
    ensures ApiPresent(b) && b.promptStatus == Returned(Downloadable) ==>
      resp == FirstDownloadResponse && trace == [CheckPrompt, StartDownload]
    ensures ReviewAsked(b) && b.prompt(ReviewPrompt(pr)).Threw? ==>
      resp == Failure(b.prompt(ReviewPrompt(pr)).message) && trace == [CheckPrompt, Prompt(ReviewPrompt(pr))]
    ensures resp.success ==> PastStatus(b, pr) && SummaryOk(b, pr)
    ensures resp.success ==> resp.error.None? && resp.results.error == StatusError(b.promptStatus.value)
    ensures resp.success ==>
      resp.results.codeReview == (if ReviewAsked(b) then Some(b.prompt(ReviewPrompt(pr)).value) else None)
    ensures resp.success && SummaryWanted(b) ==> resp.results.summary == Some(b.summarize(SummaryText(pr)).value)
    ensures resp.success && !SummaryWanted(b) ==> resp.results.summary.None?
    ensures PastStatus(b, pr) ==> (resp.success <==> SummaryOk(b, pr))
    ensures PastStatus(b, pr) && SummarizerPresent(b) && b.summarizerStatus.Threw? ==>
      resp == Failure(b.summarizerStatus.message)
    ensures PastStatus(b, pr) && SummaryWanted(b) && b.summarize(SummaryText(pr)).Threw? ==>
      resp == Failure(b.summarize(SummaryText(pr)).message)
    ensures !resp.success ==> resp.results.error.Some?
    ensures !resp.results.loading
    ensures !resp.success && resp.error.Some? ==> resp == Failure(resp.error.value)
    ensures StartDownload in trace ==> CheckSummarizer !in trace
  {
    var results := ReviewResult(None, None, None, false);
    trace := [];
    if !ApiPresent(b) {
      return Failure(NoApiMessage), trace;
    }
    trace := trace + [CheckPrompt];
    if b.promptStatus.Threw? {
      return Failure(b.promptStatus.message), trace;
    }
    var status := b.promptStatus.value;
    if status == Available || status == Downloadable {
      if status == Downloadable {
        results := results.(error := Some(FirstDownloadMessage));
        trace := trace + [StartDownload];
        return AnalysisResponse(false, None, results), trace;
      }
      var text := ReviewPrompt(pr);
      trace := trace + [Prompt(text)];
      var answer := b.prompt(text);
      if answer.Threw? {
        return Failure(answer.message), trace;
      }
      results := results.(codeReview := Some(answer.value));
    } else if status == Downloading {
      results := results.(error := Some(DownloadingMessage));
    } else {
      results := results.(error := Some(NotReadyMessage(status)));
    }
    if SummarizerPresent(b) {
      trace := trace + [CheckSummarizer];
      if b.summarizerStatus.Threw? {
        return Failure(b.summarizerStatus.message), trace;
      }
      var summarizerStatus := b.summarizerStatus.value;
      if summarizerStatus == Available || summarizerStatus == Downloadable {
        var text := SummaryText(pr);
        trace := trace + [Summarize(text)];
        var summary := b.summarize(text);
        if summary.Threw? {
          return Failure(summary.message), trace;
        }
        results := results.(summary := Some(summary.value));
      }
    }
    resp := AnalysisResponse(true, None, results);
  }

  // ---------------------------------------------------------------------------
  // handleQuestionAnswer

  const NoApiQuestionMessage := "Chrome AI APIs not available"

  /** `review ? review.substring(0, 1500) : 'No review available'`. */
  function ReviewExcerpt(review: Option<string>): (r: string)
    ensures Truthy(review) ==> r <= review.value && |r| <= 1500
    ensures Truthy(review) && |review.value| <= 1500 ==> r == review.value
    ensures Truthy(review) && |review.value| > 1500 ==> |r| == 1500
    ensures !Truthy(review) ==> r == "No review available"
  {
    if Truthy(review) then Take(review.value, 1500) else "No review available"
  }

  /** The part of the follow-up prompt before the history (background.js:243-252). */
  function PromptHead(pr: PRData, review: Option<string>): string {
    "**Original PR Context:**\nTitle: " + pr.title
      + "\nDescription: " + (if pr.description == "" then "No description" else pr.description)
      + "\n\n**Your Previous Review Summary:**\n" + ReviewExcerpt(review) + "\n\n"
  }

  /** One exchange of the history, numbered `n` from 1, its answer cut to
      300 characters (background.js:258). */
  function EntryBlock(n: nat, qa: QAEntry): string {
    "Q" + DecimalString(n) + ": " + qa.question + "\nA" + DecimalString(n) + ": " + Take(qa.answer, 300) + "\n\n"
  }

  /** `f(n + 1, xs[0]) + f(n + 2, xs[1]) + …`: the text a `forEach` over
      `xs` appends, numbering its items from `n + 1`. */
  function Numbered<T>(xs: seq<T>, n: nat, f: (nat, T) -> string): string
    decreases |xs|
  {
    if xs == [] then "" else f(n + 1, xs[0]) + Numbered(xs[1..], n + 1, f)
  }

  /** The history section, absent for an empty history. */
  function HistorySection(history: seq<QAEntry>): string {
    if history == [] then "" else "**Recent Conversation:**\n" + Numbered(history, 0, EntryBlock)
  }

  /** The part after the history: the question itself. */
  function PromptTail(question: string): string {
    "**Current Question:**\n" + question + "\n\n"
  }

  /** The follow-up prompt: it opens with the pull request and the review,
      has a history section exactly when there are exchanges, and ends with
      the question. */
  function ContextPrompt(question: string, pr: PRData, review: Option<string>, history: seq<QAEntry>): (r: string)
    ensures PromptHead(pr, review) <= r
    ensures |PromptTail(question)| <= |r| && r[|r| - |PromptTail(question)|..] == PromptTail(question)
    ensures history == [] <==> |r| == |PromptHead(pr, review)| + |PromptTail(question)|
  {
    PromptHead(pr, review) + HistorySection(history) + PromptTail(question)
  }

  /** Appending an item adds its text at the end, numbered one past the
      items before it. */
  lemma {:induction false} NumberedSnoc<T>(xs: seq<T>, n: nat, x: T, f: (nat, T) -> string)
    ensures Numbered(xs + [x], n, f) == Numbered(xs, n, f) + f(n + |xs| + 1, x)
    decreases |xs|
  {
    if xs == [] {
      assert [] + [x] == [x];
      assert [x][1..] == [];
    } else {
      assert (xs + [x])[0] == xs[0];
      assert (xs + [x])[1..] == xs[1..] + [x];
      NumberedSnoc(xs[1..], n + 1, x, f);
    }
  }

  /** One turn of the `forEach`: the text grows by the next item's text. */
  lemma NumberedStep<T>(pre: string, xs: seq<T>, i: nat, f: (nat, T) -> string)
    requires i < |xs|
    ensures pre + Numbered(xs[..i], 0, f) + f(i + 1, xs[i]) == pre + Numbered(xs[..i + 1], 0, f)
  {
    NumberedSnoc(xs[..i], 0, xs[i], f);
    assert xs[..i + 1] == xs[..i] + [xs[i]];
  }

  /** The text of a sequence is that of a prefix followed by that of the
      rest, numbered on from the prefix. */
  lemma {:induction false} NumberedAfter<T>(xs: seq<T>, i: nat, f: (nat, T) -> string)
    requires i <= |xs|
    ensures Numbered(xs, 0, f) == Numbered(xs[..i], 0, f) + Numbered(xs[i..], i, f)
    decreases i
  {
    if i == 0 {
      assert xs[..0] == [] && xs[0..] == xs;
    } else {
      NumberedAfter(xs, i - 1, f);
      assert xs[..i] == xs[..i - 1] + [xs[i - 1]];
      NumberedSnoc(xs[..i - 1], 0, xs[i - 1], f);
      assert xs[i - 1..][1..] == xs[i..];
    }
  }

  /** The `i`-th exchange (from 0) is written as block `i + 1`, after the
      blocks of the exchanges before it and before those after it. */
  lemma HistoryInOrder(history: seq<QAEntry>, i: nat)
    requires i < |history|
    ensures Numbered(history, 0, EntryBlock) ==
      Numbered(history[..i], 0, EntryBlock) + EntryBlock(i + 1, history[i]) + Numbered(history[i + 1..], i + 1, EntryBlock)
  {
    NumberedAfter(history, i, EntryBlock);
    assert history[i..][1..] == history[i + 1..];
  }

  /** The follow-up prompt is assembled as in the source: the head, then
      one block per exchange appended in a loop, then the question. */
  method BuildContextPrompt(question: string, pr: PRData, review: Option<string>, history: seq<QAEntry>)
    returns (prompt: string)
    ensures prompt == ContextPrompt(question, pr, review, history)
  {
    prompt := PromptHead(pr, review);
    if |history| > 0 {
      prompt := prompt + "**Recent Conversation:**\n";
      ghost var start := prompt;
      var idx := 0;
      while idx < |history|
        invariant 0 <= idx <= |history|
        invariant prompt == start + Numbered(history[..idx], 0, EntryBlock)
      {
        NumberedStep(start, history, idx, EntryBlock);
        prompt := prompt + EntryBlock(idx + 1, history[idx]);
        idx := idx + 1;
      }
      assert history[..idx] == history;
      Assoc(PromptHead(pr, review), "**Recent Conversation:**\n", Numbered(history, 0, EntryBlock));
    }
    prompt := prompt + PromptTail(question);
  }

  /** `handleQuestionAnswer(data, sendResponse)` (background.js:223-287):
      the model is asked only when it is available, and then with the
      follow-up prompt; every failure is one error reply. */
  method HandleQuestionAnswer(b: Backend, req: QuestionRequest) returns (resp: AnswerResponse, trace: seq<Step>)
    ensures !ApiPresent(b) ==> resp == AnswerResponse(false, None, Some(NoApiQuestionMessage)) && trace == []
    ensures ApiPresent(b) && b.promptStatus.Threw? ==>
      resp == AnswerResponse(false, None, Some(b.promptStatus.message)) && trace == [CheckPrompt]
    ensures ApiPresent(b) && b.promptStatus.Returned? && b.promptStatus.value != Available ==>
      resp == AnswerResponse(false, None, Some(NotReadyMessage(b.promptStatus.value))) && trace == [CheckPrompt]
    ensures ReviewAsked(b) ==>
      trace == [CheckPrompt, Prompt(ContextPrompt(req.question, req.prData, req.review, req.history))]
    ensures resp.success <==>
      ReviewAsked(b) && b.prompt(ContextPrompt(req.question, req.prData, req.review, req.history)).Returned?
    ensures resp.success ==>
      resp.error.None? && resp.answer == Some(b.prompt(ContextPrompt(req.question, req.prData, req.review, req.history)).value)
    ensures !resp.success ==> resp.answer.None? && resp.error.Some?
    ensures ReviewAsked(b) && b.prompt(ContextPrompt(req.question, req.prData, req.review, req.history)).Threw? ==>
      resp == AnswerResponse(false, None, Some(b.prompt(ContextPrompt(req.question, req.prData, req.review, req.history)).message))
  {
    trace := [];
    if !ApiPresent(b) {
      return AnswerResponse(false, None, Some(NoApiQuestionMessage)), trace;
    }
    trace := trace + [CheckPrompt];
    if b.promptStatus.Threw? {
      return AnswerResponse(false, None, Some(b.promptStatus.message)), trace;
    }
    if b.promptStatus.value != Available {
      return AnswerResponse(false, None, Some(NotReadyMessage(b.promptStatus.value))), trace;
    }
    var prompt := BuildContextPrompt(req.question, req.prData, req.review, req.history);
    trace := trace + [Prompt(prompt)];
    var answer := b.prompt(prompt);
    if answer.Threw? {
      return AnswerResponse(false, None, Some(answer.message)), trace;
    }
    resp := AnswerResponse(true, Some(answer.value), None);
  }
}
