/**
 * The side panel (sidebar.js): how a stored analysis result is shown, the
 * timers that wait for a model download, and the follow-up question thread.
 * The question handler is asynchronous; it is split at its `await` into
 * `Ask`, which runs up to the message to the service worker, and `Answer`,
 * which runs when the reply (or the failure of the message) arrives.
 */
module Sidebar {
  import opened Text
  import opened Types
  import opened Escape
  import opened Formatter

  // ---------------------------------------------------------------------------
  // What the panel shows

  /** The content area of the panel. Each view keeps the texts it shows:
      a message is written escaped, and of a review the summary is written
      escaped and the code review formatted (`SectionsHtml`). */
  datatype View =
    | Blank
    | LoadingView
    | DownloadView(message: string)
    | ErrorView(message: string)
    | ReviewView(summary: Option<string>, codeReview: Option<string>)
    | NoResults
    | ModelReady

  /** A result that is neither in progress nor an error: the only kind the
      panel treats as a finished review. */
  predicate Complete(r: ReviewResult) {
    !r.loading && !Truthy(r.error)
  }

  /** The view `displayReview` writes for a result (sidebar.js:105-159). */
  function ViewOf(r: ReviewResult): (v: View)
    ensures v == LoadingView <==> r.loading
    ensures v.DownloadView? <==> !r.loading && Truthy(r.error) && Contains(r.error.value, "downloading")
    ensures v.ErrorView? <==> !r.loading && Truthy(r.error) && !Contains(r.error.value, "downloading")
    ensures (v.DownloadView? || v.ErrorView?) ==> v.message == r.error.value
    ensures v.ReviewView? || v == NoResults <==> Complete(r)
    ensures v == NoResults <==> Complete(r) && !Truthy(r.summary) && !Truthy(r.codeReview)
    ensures v.ReviewView? ==>
      && (v.summary.Some? <==> Truthy(r.summary)) && (v.summary.Some? ==> v.summary == r.summary)
      && (v.codeReview.Some? <==> Truthy(r.codeReview)) && (v.codeReview.Some? ==> v.codeReview == r.codeReview)
  {
    if r.loading then LoadingView
    else if Truthy(r.error) then
      if Contains(r.error.value, "downloading") then DownloadView(r.error.value) else ErrorView(r.error.value)
    else if !Truthy(r.summary) && !Truthy(r.codeReview) then NoResults
    else
      ReviewView(if Truthy(r.summary) then r.summary else None, if Truthy(r.codeReview) then r.codeReview else None)
  }

  /** The HTML of the sections of a review (sidebar.js:131-148). */
  function SectionsHtml(summary: Option<string>, codeReview: Option<string>): string {
    (if summary.Some? then "<div class=\"section\"><h2>📝 Summary</h2><div class=\"section-content\">" + EscapeHtml(summary.value) + "</div></div>" else "")
    + (if codeReview.Some? then "<div class=\"section\"><h2>🔍 AI Code Review</h2><div class=\"section-content\">" + FormatCodeReview(codeReview.value) + "</div></div>" else "")
  }

  /** The part of the panel's state `displayReview` writes: the view, the
      review kept as the context of questions, whether the question section
      is shown, and the poll timers (`true` while a timer is still set). */
  datatype Screen = Screen(view: View, currentReview: Option<ReviewResult>, qaVisible: bool, intervals: seq<bool>)

  /** The effect of `displayReview(r)` (sidebar.js:105-165). */
  function Displayed(s: Screen, r: ReviewResult): (t: Screen)
    ensures t.view == ViewOf(r)
    ensures t.currentReview == s.currentReview || (Complete(r) && t.currentReview == Some(r))
    ensures t.currentReview != s.currentReview ==> Complete(r)
    ensures Complete(r) ==> t.currentReview == Some(r)
    ensures t.qaVisible <==> s.qaVisible || (Complete(r) && Truthy(r.codeReview))
    ensures |s.intervals| <= |t.intervals| <= |s.intervals| + 1
    ensures t.intervals[..|s.intervals|] == s.intervals
    ensures |t.intervals| > |s.intervals| <==> t.view.DownloadView?
    ensures |t.intervals| > |s.intervals| ==> t.intervals[|s.intervals|]
  {
    Screen(
      ViewOf(r),
      if Complete(r) then Some(r) else s.currentReview,
      s.qaVisible || (Complete(r) && Truthy(r.codeReview)),
      s.intervals + (if ViewOf(r).DownloadView? then [true] else []))
  }

  /** A poll that finds the language model available. */
  predicate ModelArrived(reply: Call<AvailabilityReport>) {
    reply.Returned? && reply.value.promptAPI == Available
  }

  // ---------------------------------------------------------------------------
  // The question thread

  /** What the thread area shows: the prompt to ask something, or the
      exchanges, written as `ThreadHtml`. */
  datatype Thread = Prompting | Exchanges(shown: seq<QAEntry>)

  /** The HTML of one exchange (sidebar.js:440-449): the question as
      escaped text, the answer formatted as a review. */
  function ExchangeHtml(qa: QAEntry): string {
    "<div class=\"qa-message qa-question\"><div class=\"qa-question-label\">Question</div><div class=\"qa-question-text\">"
      + EscapeHtml(qa.question)
      + "</div></div><div class=\"qa-message qa-answer\"><div class=\"qa-answer-label\">AI Answer</div><div class=\"qa-answer-text\">"
      + FormatCodeReview(qa.answer)
      + "</div></div>"
  }

  /** The thread `renderQAHistory` writes for a history: the prompt for an
      empty one, otherwise every exchange, in order. */
  function Rendered(history: seq<QAEntry>): (th: Thread)
    ensures th == Prompting <==> history == []
    ensures th.Exchanges? ==> th.shown == history
  {
    if history == [] then Prompting else Exchanges(history)
  }

  /** The HTML of the exchanges shown, one after the other in their order. */
  function ThreadHtml(shown: seq<QAEntry>): string {
    ConcatMap(shown, ExchangeHtml)
  }

  /** How many earlier exchanges go with a question as context. */
  const ContextSize := 3

  const MaxQuestionLength := 500
  const TooLongMessage := "Question is too long. Please keep it under 500 characters."
  const NoReviewMessage := "No PR data available. Please run a review first."
  const NoAnswerMessage := "Failed to get answer from AI"

  /** The reply to a question carries an answer. */
  predicate Answered(reply: Call<Option<AnswerResponse>>) {
    reply.Returned? && reply.value.Some? && reply.value.value.success
  }

  /** The answer recorded; a missing answer is recorded as empty text. */
  function AnswerText(r: AnswerResponse): string {
    if r.answer.Some? then r.answer.value else ""
  }

  /** The error shown when a question gets no answer (sidebar.js:416-421):
      the worker's error, the fallback when it has none, or the message of
      the failure. It is never empty. */
  function AnswerError(reply: Call<Option<AnswerResponse>>): (m: string)
    ensures m != ""
    ensures reply.Returned? && reply.value.Some? && Truthy(reply.value.value.error) ==> m == reply.value.value.error.value
    ensures reply.Returned? && (reply.value.None? || !Truthy(reply.value.value.error)) ==> m == NoAnswerMessage
    ensures reply.Threw? ==> m == "Error: " + reply.message
  {
    match reply
    case Threw(e) => "Error: " + e
    case Returned(None) => NoAnswerMessage
    case Returned(Some(r)) => if Truthy(r.error) then r.error.value else NoAnswerMessage
  }

  // ---------------------------------------------------------------------------
  // The panel

  /** The panel's module state and the parts of its page it writes. */
  class Panel {
    var view: View
    var currentPRData: Option<PRData>
    var currentReview: Option<ReviewResult>
    var qaHistory: seq<QAEntry>
    var thread: Thread
    var qaVisible: bool
    var inputsEnabled: bool
    var thinking: bool
    var intervals: seq<bool>

    /** The inputs are disabled exactly while the thinking indicator is up,
        and the review used as context is a finished one. */
    ghost predicate Valid()
      reads this
    {
      && (thinking <==> !inputsEnabled)
      && (currentReview.Some? ==> Complete(currentReview.value))
    }

    function ScreenOf(): Screen
      reads this
    {
      Screen(view, currentReview, qaVisible, intervals)
    }

    constructor ()
      ensures Valid() && view == Blank && currentPRData.None? && currentReview.None?
      ensures qaHistory == [] && thread == Prompting && !qaVisible && inputsEnabled && intervals == []
    {
      view := Blank;
      currentPRData := None;
      currentReview := None;
      qaHistory := [];
      thread := Prompting;
      qaVisible := false;
      inputsEnabled := true;
      thinking := false;
      intervals := [];
    }

    /** `displayReview(results)` (sidebar.js:105-165, with the views of
        sidebar.js:234-330): a download message starts one more poll timer;
        only a finished review becomes the context of questions. */
    method DisplayReview(r: ReviewResult)
      requires Valid()
      modifies this`view, this`currentReview, this`qaVisible, this`intervals
      ensures Valid()
      ensures ScreenOf() == Displayed(old(ScreenOf()), r)
    {
      if r.loading {
        view := LoadingView;
        return;
      }
      if Truthy(r.error) {
        if Contains(r.error.value, "downloading") {
          view := DownloadView(r.error.value);
          intervals := intervals + [true];
        } else {
          view := ErrorView(r.error.value);
        }
        return;
      }
      currentReview := Some(r);
      var summary := None;
      if Truthy(r.summary) {
        summary := r.summary;
      }
      var review := None;
      if Truthy(r.codeReview) {
        review := r.codeReview;
      }
      if summary.None? && review.None? {
        view := NoResults;
      } else {
        view := ReviewView(summary, review);
      }
      if Truthy(r.codeReview) {
        qaVisible := true;
      }
    }

    /** One firing of poll timer `k` (sidebar.js:283-304): a timer that is
        cleared no longer fires; a poll that finds the model available clears
        its timer and shows that the model is ready, whatever the panel
        shows; any other reply, or a failed poll, changes nothing. */
    method PollTick(k: nat, reply: Call<AvailabilityReport>)
      requires k < |intervals|
      modifies this`view, this`intervals
      ensures old(intervals[k]) && ModelArrived(reply) ==> intervals == old(intervals)[k := false] && view == ModelReady
      ensures !(old(intervals[k]) && ModelArrived(reply)) ==> intervals == old(intervals) && view == old(view)
    {
      if !intervals[k] {
        return;
      }
      if reply.Returned? && reply.value.promptAPI == Available {
        intervals := intervals[k := false];
        view := ModelReady;
      }
    }

    /** `renderQAHistory()` (sidebar.js:429-454): the prompt for an empty
        history, otherwise every exchange in order. */
    method RenderQAHistory()
      modifies this`thread
      ensures thread == Rendered(qaHistory)
    {
      if |qaHistory| == 0 {
        thread := Prompting;
      } else {
        thread := Exchanges(qaHistory);
      }
    }

    /** The storage listeners (sidebar.js:27-52): the change listener and
        the initial read treat the keys present alike. A result is
        displayed, a pull request replaces the current one, and a thread
        replaces the history and is rendered. */
    method OnStorage(changes: Store)
      requires Valid()
      modifies this
      ensures Valid()
      ensures ScreenOf() == if changes.latestReview.Some? then Displayed(old(ScreenOf()), changes.latestReview.value) else old(ScreenOf())
      ensures currentPRData == if changes.currentPRData.Some? then changes.currentPRData else old(currentPRData)
      ensures qaHistory == if changes.qaHistory.Some? then changes.qaHistory.value else old(qaHistory)
      ensures thread == if changes.qaHistory.Some? then Rendered(qaHistory) else old(thread)
      ensures inputsEnabled == old(inputsEnabled) && thinking == old(thinking)
    {
      if changes.latestReview.Some? {
        DisplayReview(changes.latestReview.value);
      }
      if changes.currentPRData.Some? {
        currentPRData := changes.currentPRData;
      }
      if changes.qaHistory.Some? {
        qaHistory := changes.qaHistory.value;
        RenderQAHistory();
      }
    }

    /** `askQuestion` up to its `await` (sidebar.js:357-392): the trimmed
        question is sent with the pull request, the code review and the last
        three exchanges, unless it is empty (nothing happens), too long, or
        there is no finished review to ask about (an error is shown). The
        button and the text area that start it are disabled while a question
        is out, so it runs only with the inputs enabled. */
    method Ask(text: string) returns (request: Option<QuestionRequest>)
      requires Valid() && inputsEnabled
      modifies this`view, this`inputsEnabled, this`thinking
      ensures Valid()
      ensures request.Some? <==> thinking
      ensures var q := Trim(text);
        && (q == "" ==> request.None? && view == old(view))
        && (|q| > MaxQuestionLength ==> request.None? && view == ErrorView(TooLongMessage))
        && (0 < |q| <= MaxQuestionLength && (currentPRData.None? || currentReview.None?) ==>
              request.None? && view == ErrorView(NoReviewMessage))
        && (0 < |q| <= MaxQuestionLength && currentPRData.Some? && currentReview.Some? ==>
              view == old(view) &&
              request == Some(QuestionRequest(q, currentPRData.value, currentReview.value.codeReview, LastN(qaHistory, ContextSize))))
    {
      var question := Trim(text);
      if question == "" {
        return None;
      }
      if |question| > MaxQuestionLength {
        view := ErrorView(TooLongMessage);
        return None;
      }
      if currentPRData.None? || currentReview.None? {
        view := ErrorView(NoReviewMessage);
        return None;
      }
      inputsEnabled := false;
      thinking := true;
      request := Some(QuestionRequest(question, currentPRData.value, currentReview.value.codeReview, LastN(qaHistory, ContextSize)));
    }

    /** `askQuestion` after its `await` (sidebar.js:393-426): an answer is
        appended to the thread, rendered, and the returned patch stores the
        thread; otherwise an error is shown and nothing is stored. Either
        way the inputs are enabled again. */
    method Answer(question: string, reply: Call<Option<AnswerResponse>>, now: int) returns (patch: Store)
      modifies this`view, this`qaHistory, this`thread, this`inputsEnabled, this`thinking
      ensures inputsEnabled && !thinking
      ensures Answered(reply) ==>
        && qaHistory == old(qaHistory) + [QAEntry(question, AnswerText(reply.value.value), now)]
        && patch == Store(None, None, Some(qaHistory))
        && thread == Rendered(qaHistory) && view == old(view)
      ensures !Answered(reply) ==>
        && qaHistory == old(qaHistory) && thread == old(thread) && patch == NoKeys
        && view == ErrorView(AnswerError(reply))
    {
      thinking := false;
      if Answered(reply) {
        qaHistory := qaHistory + [QAEntry(question, AnswerText(reply.value.value), now)];
        patch := Store(None, None, Some(qaHistory));
        RenderQAHistory();
      } else {
        view := ErrorView(AnswerError(reply));
        patch := NoKeys;
      }
      inputsEnabled := true;
    }
  }
}
