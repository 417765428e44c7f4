/**
 * How the three parts of the extension fit together: the responses of the
 * service worker as the page script classifies them and as the side panel
 * shows the stored result.
 */
module Flows {
  import opened Text
  import opened Types
  import opened Formatter
  import Background
  import Content
  import Sidebar

  /** The marker the page script and the panel look for is in both
      download messages of the worker. */
  lemma DownloadMarkers()
    ensures Contains(Background.FirstDownloadMessage, "downloading")
    ensures Contains(Background.DownloadingMessage, "downloading")
  {
    var opening := Background.DownloadingOpening;
    assert opening[12..] == "downloading";
    OccursLeft(opening, " for the first time. This may take 5-10 minutes. Please check back later.", "downloading", 12);
    ContainsAt(Background.FirstDownloadMessage, "downloading", 12);
    OccursLeft(opening, ". This may take 5-10 minutes. Please wait and try again.", "downloading", 12);
    ContainsAt(Background.DownloadingMessage, "downloading", 12);
  }

  /** A first download: the page announces it and the panel shows the
      download message and starts a poll timer; no review becomes the
      context of questions. */
  lemma FirstDownloadFlow(s: Sidebar.Screen)
    ensures var results := ErrorResult(Background.FirstDownloadMessage);
      && Content.Classify(Returned(Some(Background.FirstDownloadResponse))) ==
           Content.AwaitingDownload(results, Background.FirstDownloadMessage)
      && Sidebar.Displayed(s, results).view == Sidebar.DownloadView(Background.FirstDownloadMessage)
      && Sidebar.Displayed(s, results).intervals == s.intervals + [true]
      && Sidebar.Displayed(s, results).currentReview == s.currentReview
  {
    DownloadMarkers();
  }

  /** A model that is still downloading does not fail the analysis: the
      worker answers with success and the status message in the results.
      The page then announces a complete review and stores the new pull
      request with an empty thread, while the panel shows the download
      message and keeps its previous review: a follow-up question then
      pairs the new pull request with the old review. */
  lemma DownloadingReviewFlow(s: Sidebar.Screen, results: ReviewResult, pr: PRData)
    requires !results.loading && results.error == Background.StatusError(Downloading)
    ensures var reply := Returned(Some(AnalysisResponse(true, None, results)));
      && Content.Classify(reply) == Content.Reviewed(results)
      && Content.NoticeFor(Content.Classify(reply)).kind == Content.Success
      && Content.Written(Content.Classify(reply), pr) == Store(Some(results), Some(pr), Some([]))
      && Sidebar.Displayed(s, results).view == Sidebar.DownloadView(Background.DownloadingMessage)
      && Sidebar.Displayed(s, results).currentReview == s.currentReview
  {
    DownloadMarkers();
  }

  /** The other unready status the worker records, an unavailable model,
      reaches the panel as an error, with no poll timer. */
  lemma UnavailableReviewFlow(s: Sidebar.Screen, results: ReviewResult)
    requires !results.loading && results.error == Background.StatusError(Unavailable)
    ensures Sidebar.Displayed(s, results).view == Sidebar.ErrorView(Background.NotReadyMessage(Unavailable))
    ensures Sidebar.Displayed(s, results).intervals == s.intervals
    ensures Sidebar.Displayed(s, results).currentReview == s.currentReview
  {
    MissingChar(Background.NotReadyMessage(Unavailable), "downloading", 2);
  }

  /** A failed analysis reaches storage, and so the panel, only when its
      message is about a download: the panel then shows that message and
      keeps the context of questions. Any other failure is only a
      notification on the page, and one with an empty message reads there
      as no reply at all. */
  lemma FailureFlow(s: Sidebar.Screen, pr: PRData, m: string)
    ensures var o := Content.Classify(Returned(Some(Background.Failure(m))));
      && (m == "" ==> o == Content.NoReply && Content.Written(o, pr) == NoKeys)
      && (m != "" && !Contains(m, "downloading") ==> o == Content.AnalysisFailed(m) && Content.Written(o, pr) == NoKeys)
      && (Contains(m, "downloading") ==>
            && o == Content.AwaitingDownload(ErrorResult(m), m)
            && Content.Written(o, pr) == Store(Some(ErrorResult(m)), None, None)
            && Sidebar.Displayed(s, ErrorResult(m)).view == Sidebar.DownloadView(m)
            && Sidebar.Displayed(s, ErrorResult(m)).currentReview == s.currentReview)
  {
  }

  /** A successful analysis stores a fresh, empty thread with the pull
      request; the panel, told of the change, forgets the earlier exchanges
      and asks about the new pull request. */
  lemma ReviewResetsThread(store: Store, results: ReviewResult, pr: PRData)
    ensures var w := Content.Written(Content.Reviewed(results), pr);
      && Merge(store, w) == Store(Some(results), Some(pr), Some([]))
      && Sidebar.Rendered(w.qaHistory.value) == Sidebar.Prompting
  {
  }

  /** The code review shown by the panel holds no tag that came from the
      review text: every angle bracket of its formatted HTML is markup the
      formatter inserted. */
  lemma ShownReviewIsSafe(r: ReviewResult)
    requires Sidebar.ViewOf(r).ReviewView? && Sidebar.ViewOf(r).codeReview.Some?
    ensures var review := r.codeReview.value; var html := FormatCodeReview(review);
      && |html| == |Formatted(review)|
      && (forall k :: 0 <= k < |html| ==> html[k] == Formatted(review)[k].c)
      && (forall k :: 0 <= k < |html| && html[k] in "<>" ==> Formatted(review)[k].origin.Markup?)
  {
  }
}
