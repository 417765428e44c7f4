/**
 * The records that travel between the page script, the service worker and
 * the side panel, and the answers of the browser's on-device AI services.
 */
module Types {

  datatype Option<T> = None | Some(value: T)

  /** A call into code outside the model: it returns a value or throws an
      error whose `message` is given. */
  datatype Call<T> = Returned(value: T) | Threw(message: string)

  /** What `availability()` of the language model or the summarizer reports. */
  datatype Status = Unavailable | Downloadable | Downloading | Available

  /** The status as the string the browser returns, interpolated into messages. */
  function StatusName(s: Status): string {
    match s
    case Unavailable => "unavailable"
    case Downloadable => "downloadable"
    case Downloading => "downloading"
    case Available => "available"
  }

  /** The pull request as scraped from the page. */
  datatype PRData = PRData(title: string, description: string, diff: string)

  /** The result of one analysis, as stored under `latestReview`.
      JavaScript's `null` and a missing property are both `None`; a missing
      `loading` flag is `false`. */
  datatype ReviewResult = ReviewResult(summary: Option<string>, codeReview: Option<string>, error: Option<string>, loading: bool)

  /** An error-only result. */
  function ErrorResult(m: string): ReviewResult {
    ReviewResult(None, None, Some(m), false)
  }

  /** One question/answer exchange of the follow-up thread. */
  datatype QAEntry = QAEntry(question: string, answer: string, timestamp: int)

  /** The reply to `checkAIAvailability`. A missing `downloading` property
      reads as `false`; a missing `error` is `None`. */
  datatype AvailabilityReport = AvailabilityReport(
    promptAPI: Status, summarizerAPI: Status, ready: bool, downloading: bool, error: Option<string>)

  /** The reply to `analyzePR`. */
  datatype AnalysisResponse = AnalysisResponse(success: bool, error: Option<string>, results: ReviewResult)

  /** The data of an `askQuestion` message. `review` is the code review text
      of the current result, `history` the context entries. */
  datatype QuestionRequest = QuestionRequest(question: string, prData: PRData, review: Option<string>, history: seq<QAEntry>)

  /** The reply to `askQuestion`. */
  datatype AnswerResponse = AnswerResponse(success: bool, answer: Option<string>, error: Option<string>)

  /** The keys of `chrome.storage.local` the extension uses; `None` is a key
      that is not set. Written with `set`, the same record is a patch whose
      `None` keys are left alone, and it is what a change event reports. */
  datatype Store = Store(latestReview: Option<ReviewResult>, currentPRData: Option<PRData>, qaHistory: Option<seq<QAEntry>>)

  const NoKeys := Store(None, None, None)

  /** `chrome.storage.local.set(patch)`: the keys of the patch replace the
      stored ones, the others stay. */
  function Merge(store: Store, patch: Store): (r: Store)
    ensures patch == NoKeys ==> r == store
    ensures patch.latestReview.Some? ==> r.latestReview == patch.latestReview
    ensures patch.latestReview.None? ==> r.latestReview == store.latestReview
    ensures patch.currentPRData.Some? ==> r.currentPRData == patch.currentPRData
    ensures patch.currentPRData.None? ==> r.currentPRData == store.currentPRData
    ensures patch.qaHistory.Some? ==> r.qaHistory == patch.qaHistory
    ensures patch.qaHistory.None? ==> r.qaHistory == store.qaHistory
  {
    Store(
      if patch.latestReview.Some? then patch.latestReview else store.latestReview,
      if patch.currentPRData.Some? then patch.currentPRData else store.currentPRData,
      if patch.qaHistory.Some? then patch.qaHistory else store.qaHistory)
  }

  /** JavaScript truthiness of an optional string: present and non-empty. */
  predicate Truthy(o: Option<string>) {
    o.Some? && o.value != ""
  }
}
