/**
 * The page script (content.js): which pages get the "AI Review" button,
 * what is read off the page, and how a click is handled. The click handler
 * is asynchronous; it is split at its `await` into `Click`, which runs up to
 * the message to the service worker, and `Receive`, which runs when the
 * reply (or the failure of the message) arrives.
 */
module Content {
  import opened Text
  import opened Types

  // ---------------------------------------------------------------------------
  // Pull request pages

  /** The test of `init` (content.js:9-12): the page is handled exactly
      when the host is one of the two sites and the path holds that site's
      marker somewhere. */
  predicate IsPRPage(hostname: string, pathname: string)
    ensures IsPRPage(hostname, pathname) ==> hostname == "github.com" || hostname == "gitlab.com"
    ensures IsPRPage(hostname, pathname) <==>
      || (hostname == "github.com" && exists i :: Occurs(pathname, "/pull/", i))
      || (hostname == "gitlab.com" && exists i :: Occurs(pathname, "/-/merge_requests/", i))
  {
    ContainsIff(pathname, "/pull/");
    ContainsIff(pathname, "/-/merge_requests/");
    || (hostname == "github.com" && Contains(pathname, "/pull/"))
    || (hostname == "gitlab.com" && Contains(pathname, "/-/merge_requests/"))
  }

  /** Every GitHub pull request path `/<owner>/<repo>/pull/<rest>` is handled. */
  lemma GitHubPullPage(owner: string, repo: string, rest: string)
    ensures IsPRPage("github.com", "/" + owner + "/" + repo + "/pull/" + rest)
  {
    var path := "/" + owner + "/" + repo + "/pull/" + rest;
    var at := |owner| + |repo| + 2;
    assert path[at..at + 6] == "/pull/";
    ContainsAt(path, "/pull/", at);
  }

  /** Every GitLab merge request path `/<project>/-/merge_requests/<rest>` is
      handled. */
  lemma GitLabMergePage(project: string, rest: string)
    ensures IsPRPage("gitlab.com", "/" + project + "/-/merge_requests/" + rest)
  {
    var path := "/" + project + "/-/merge_requests/" + rest;
    var at := |project| + 1;
    assert path[at..at + 18] == "/-/merge_requests/";
    ContainsAt(path, "/-/merge_requests/", at);
  }

  // ---------------------------------------------------------------------------
  // extractPRData

  datatype Site = GitHub | GitLab

  /** `extractPRData` reads GitHub's elements on `github.com` and GitLab's
      everywhere else. */
  function SiteOf(hostname: string): Site {
    if hostname == "github.com" then GitHub else GitLab
  }

  /** What `extractPRData` reads off the page: the text of the title and
      description elements (`None` when the element is missing) and the
      text of each diff line element, in document order. */
  datatype PageText = PageText(title: Option<string>, description: Option<string>, diffLines: seq<string>)

  const DiffLimit := 10000

  /** The diff written when the page shows no changed lines. */
  function Placeholder(site: Site): string {
    match site
    case GitHub => "Please navigate to the \"Files changed\" tab to review code."
    case GitLab => "Please navigate to the \"Changes\" tab to review code."
  }

  /** `el?.textContent.trim() || ''`. */
  function ElementText(e: Option<string>): string {
    if e.None? then "" else Trim(e.value)
  }

  /** `extractPRData()` (content.js:147-181) over the texts of the page. */
  function ExtractPRData(hostname: string, page: PageText): (pr: PRData)
    ensures pr.diff != ""
    ensures |pr.diff| <= DiffLimit
    ensures pr.title == ElementText(page.title) && pr.description == ElementText(page.description)
  {
    var diff := Take(Join(page.diffLines, "\n"), DiffLimit);
    PRData(ElementText(page.title), ElementText(page.description), if diff == "" then Placeholder(SiteOf(hostname)) else diff)
  }

  /** The placeholder stands in exactly when no diff line, or a single empty
      one, was found; otherwise the diff is the start of the lines joined by
      newlines, as much of it as the limit allows. */
  lemma {:induction false} ExtractedDiff(hostname: string, page: PageText)
    ensures var joined, pr := Join(page.diffLines, "\n"), ExtractPRData(hostname, page);
      && ((page.diffLines == [] || page.diffLines == [""]) ==> pr.diff == Placeholder(SiteOf(hostname)))
      && (!(page.diffLines == [] || page.diffLines == [""]) ==>
            pr.diff <= joined && |pr.diff| == if |joined| < DiffLimit then |joined| else DiffLimit)
  {
    var joined := Join(page.diffLines, "\n");
    JoinEmpty(page.diffLines, "\n");
    if joined != "" {
      assert Take(joined, DiffLimit) != "";
    }
  }

  // ---------------------------------------------------------------------------
  // handleAIReview

  datatype Button = Idle | Analyzing

  datatype NoticeKind = Info | Success | Warning | Failure

  /** A notification shown on the page. */
  datatype Notice = Notice(message: string, kind: NoticeKind)

  /** What became of a request to analyse. */
  datatype Outcome =
    | Reviewed(results: ReviewResult)
    | AwaitingDownload(results: ReviewResult, message: string)
    | AnalysisFailed(message: string)
    | NoReply
    | ReplyThrew(message: string)

  /** `response.error || response.results?.error`: the first of the two
      that is a non-empty text, if any. */
  function ErrorOf(r: AnalysisResponse): (e: Option<string>)
    ensures e.Some? ==> e.value != ""
    ensures Truthy(r.error) ==> e == r.error
    ensures !Truthy(r.error) ==> e == (if Truthy(r.results.error) then r.results.error else None)
  {
    if Truthy(r.error) then r.error else if Truthy(r.results.error) then r.results.error else None
  }

  /** How `handleAIReview` reads a reply (content.js:107-138): the message
      to the worker returned a response, nothing, or threw. */
  function Classify(reply: Call<Option<AnalysisResponse>>): (o: Outcome)
    ensures o.Reviewed? <==> reply.Returned? && reply.value.Some? && reply.value.value.success
    ensures o.Reviewed? ==> o.results == reply.value.value.results
    ensures o.AwaitingDownload? ==>
      && reply.Returned? && reply.value.Some? && !reply.value.value.success
      && o.results == reply.value.value.results
      && ErrorOf(reply.value.value) == Some(o.message) && Contains(o.message, "downloading")
    ensures o.AnalysisFailed? ==>
      && reply.Returned? && reply.value.Some? && !reply.value.value.success
      && ErrorOf(reply.value.value) == Some(o.message)
      && !Contains(o.message, "downloading") && o.message != ""
    ensures o.NoReply? <==>
      reply.Returned? && (reply.value.None? || (!reply.value.value.success && ErrorOf(reply.value.value).None?))
    ensures reply == Returned(None) ==> o == NoReply
    ensures o.ReplyThrew? <==> reply.Threw?
    ensures reply.Threw? ==> o == ReplyThrew(reply.message)
    ensures reply.Returned? && reply.value.Some? && !reply.value.value.success ==>
      var r := reply.value.value;
      && (ErrorOf(r).None? ==> o == NoReply)
      && (ErrorOf(r).Some? && Contains(ErrorOf(r).value, "downloading") ==> o == AwaitingDownload(r.results, ErrorOf(r).value))
      && (ErrorOf(r).Some? && !Contains(ErrorOf(r).value, "downloading") ==> o == AnalysisFailed(ErrorOf(r).value))
  {
    match reply
    case Threw(m) => ReplyThrew(m)
    case Returned(None) => NoReply
    case Returned(Some(r)) =>
      if r.success then Reviewed(r.results)
      else match ErrorOf(r)
        case None => NoReply
        case Some(m) => if Contains(m, "downloading") then AwaitingDownload(r.results, m) else AnalysisFailed(m)
  }

  /** The storage write of each outcome (content.js:109-113, 123): a review
      stores the results, the pull request and an empty thread together; a
      download message stores the results alone; the rest writes nothing. */
  function Written(o: Outcome, pr: PRData): Store {
    match o
    case Reviewed(r) => Store(Some(r), Some(pr), Some([]))
    case AwaitingDownload(r, _) => Store(Some(r), None, None)
    case _ => NoKeys
  }

  /** Only a successful analysis resets the thread and records the pull
      request; a download message only replaces the stored result; every
      other reply leaves storage alone. */
  lemma {:induction false} WrittenKeys(reply: Call<Option<AnalysisResponse>>, pr: PRData)
    ensures var w := Written(Classify(reply), pr);
      && (w.qaHistory.Some? <==> reply.Returned? && reply.value.Some? && reply.value.value.success)
      && (w.qaHistory.Some? ==> w.qaHistory == Some([]) && w.currentPRData == Some(pr))
      && (w.latestReview.Some? <==> Classify(reply).Reviewed? || Classify(reply).AwaitingDownload?)
      && (w.latestReview.Some? ==> w.latestReview == Some(reply.value.value.results))
      && (w.latestReview.None? ==> w == NoKeys)
  {
    match Classify(reply)
    case Reviewed(_) =>
    case AwaitingDownload(_, _) =>
    case AnalysisFailed(_) =>
    case NoReply =>
    case ReplyThrew(_) =>
  }

  const ContextInvalidatedNotice := "Extension was reloaded. Please refresh this page and try again."
  const PortClosedNotice := "Connection lost. Please reload the extension and refresh this page."

  /** The notification of each outcome: a success only for a review, news
      only for a download, and an error for everything else; a failure or
      an exception shows its message unless it is one of the two known
      connection errors. */
  function NoticeFor(o: Outcome): (n: Notice)
    ensures n.kind == Success <==> o.Reviewed?
    ensures n.kind == Info <==> o.AwaitingDownload?
    ensures n.kind == Failure <==> !o.Reviewed? && !o.AwaitingDownload?
    ensures o.AnalysisFailed? ==> n.message == "Analysis failed: " + o.message
    ensures o.ReplyThrew? && Contains(o.message, "Extension context invalidated") ==> n.message == ContextInvalidatedNotice
    ensures o.ReplyThrew? && !Contains(o.message, "Extension context invalidated") && Contains(o.message, "message port closed") ==>
      n.message == PortClosedNotice
    ensures o.ReplyThrew? && !Contains(o.message, "Extension context invalidated") && !Contains(o.message, "message port closed") ==>
      n.message == "AI review failed: " + (if o.message == "" then "Unknown error" else o.message)
  {
    match o
    case Reviewed(_) => Notice("AI review complete! Check the side panel", Success)
    case AwaitingDownload(_, _) => Notice("AI model is downloading (5-10 min). Check side panel for details.", Info)
    case AnalysisFailed(m) => Notice("Analysis failed: " + m, Failure)
    case NoReply => Notice("No response from AI. Extension may need to be reloaded.", Failure)
    case ReplyThrew(m) =>
      if m != "" && Contains(m, "Extension context invalidated") then
        Notice(ContextInvalidatedNotice, Failure)
      else if m != "" && Contains(m, "message port closed") then
        Notice(PortClosedNotice, Failure)
      else
        Notice("AI review failed: " + (if m == "" then "Unknown error" else m), Failure)
  }

  const NeedsChromeMessage := "CodeReview AI requires Chrome 138+ with AI features enabled"

  /** The page script's module state and the part of `chrome.storage.local`
      and of the page it writes. */
  class ContentScript {
    var isAnalyzing: bool
    var button: Button
    var store: Store
    var notices: seq<Notice>

    /** The button shows "Analyzing..." exactly while a request is out. */
    ghost predicate Valid()
      reads this
    {
      isAnalyzing <==> button == Analyzing
    }

    constructor (stored: Store)
      ensures Valid() && !isAnalyzing && button == Idle && store == stored && notices == []
    {
      isAnalyzing := false;
      button := Idle;
      store := stored;
      notices := [];
    }

    /** `checkAIAvailability()` (content.js:19-29): a warning when the
        worker reports the AI is not ready; a failed message is ignored. */
    method CheckAvailability(reply: Call<AvailabilityReport>)
      modifies this`notices
      ensures notices == old(notices) + (if reply.Returned? && !reply.value.ready then [Notice(NeedsChromeMessage, Warning)] else [])
    {
      if reply.Returned? && !reply.value.ready {
        notices := notices + [Notice(NeedsChromeMessage, Warning)];
      }
    }

    /** `handleAIReview` up to its `await` (content.js:75-105): a click
        while a request is out does nothing; otherwise the button turns busy
        and the pull request read off the page is sent. */
    method Click(hostname: string, page: PageText) returns (request: Option<PRData>)
      requires Valid()
      modifies this
      ensures Valid()
      ensures old(isAnalyzing) ==> request.None? && isAnalyzing && button == old(button)
      ensures !old(isAnalyzing) ==> request == Some(ExtractPRData(hostname, page)) && isAnalyzing && button == Analyzing
      ensures store == old(store) && notices == old(notices)
    {
      if isAnalyzing {
        return None;
      }
      isAnalyzing := true;
      button := Analyzing;
      var pr := ExtractPRData(hostname, page);
      request := Some(pr);
    }

    /** `handleAIReview` after its `await` (content.js:107-143): the reply
        is classified, one notification is shown, what the outcome writes is
        stored, and in every case the button is idle again. */
    method Receive(pr: PRData, reply: Call<Option<AnalysisResponse>>)
      modifies this
      ensures Valid() && !isAnalyzing && button == Idle
      ensures store == Merge(old(store), Written(Classify(reply), pr))
      ensures notices == old(notices) + [NoticeFor(Classify(reply))]
    {
      var outcome := Classify(reply);
      notices := notices + [NoticeFor(outcome)];
      store := Merge(store, Written(outcome, pr));
      button := Idle;
      isAnalyzing := false;
    }
  }
}
