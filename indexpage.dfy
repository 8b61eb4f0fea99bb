/**
  The page that hosts the upload and summary components: it owns the uploaded
  records and the processing flag, and hands both to the summary component.
 */
module IndexPage {
  import opened RowNormalizer
  import opened DataSummary

  class Page {
    /** The records of the last finished upload. */
    var uploadedData: seq<CaseStudy>
    /** An upload has started and not yet finished. */
    var isProcessing: bool

    /** Nothing uploaded, nothing in progress. */
    constructor ()
      ensures uploadedData == [] && !isProcessing
    {
      uploadedData := [];
      isProcessing := false;
    }

    /** The upload finished: its records replace the previous ones wholesale and processing ends. */
    method HandleDataProcessed(data: seq<CaseStudy>)
      modifies this
      ensures uploadedData == data
      ensures !isProcessing
    {
      uploadedData := data;
      isProcessing := false;
    }

    /** An upload started: the flag is raised and the records shown so far are kept. */
    method HandleProcessingStart()
      modifies this
      ensures isProcessing
      ensures uploadedData == old(uploadedData)
    {
      isProcessing := true;
    }

    /** What the summary component shows for the current state. */
    function CurrentView(): (v: View)
      reads this
      ensures isProcessing ==> v.ProcessingView?
      ensures !isProcessing && uploadedData == [] ==> v.EmptyView?
      ensures !isProcessing && uploadedData != [] ==>
        v.SummaryView? && v.summaries == Summaries(uploadedData) && v.stats == StatsOf(uploadedData)
    {
      SelectView(uploadedData, isProcessing)
    }
  }

  /** The page starts on the empty placeholder. */
  method InitialView() returns (v: View)
    ensures v == EmptyView
  {
    var page := new Page();
    v := page.CurrentView();
  }
}
