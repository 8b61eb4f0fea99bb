/**
  The upload pipeline: a drop starts processing for the first accepted file
  only; when the file has been read, its decoded rows are normalised and
  handed to the page, or, if decoding throws, an empty record list is.
 */
module FileUpload {
  import opened JsValues
  import opened JsObjects
  import opened RowNormalizer
  import opened DataSummary
  import opened IndexPage

  datatype Option<T> = None | Some(value: T)

  /** What reading the workbook and its first sheet as row objects yields: rows, or an exception. */
  datatype Decoded = Sheet(rows: seq<RawRow>) | Unreadable

  /**
    A dropped file: either the reader loads it, and it is represented by what
    decoding its bytes yields, or the read itself fails. Only `onload` is
    installed, so a failed read runs no handler at all.
   */
  datatype File = Readable(contents: Decoded) | ReadFails

  /** The notification shown when processing ends. */
  datatype Toast = Extracted(count: nat) | ProcessingError

  /** The records handed to the page and the notification shown. */
  datatype Outcome = Outcome(data: seq<CaseStudy>, toast: Toast)

  /**
    The body of the reader's `onload`: on a decoded sheet the normalised
    records and their count; when decoding throws, no records and an error.
   */
  function LoadOutcome(d: Decoded): (o: Outcome)
    ensures o.toast.ProcessingError? <==> d.Unreadable?
    ensures o.toast.ProcessingError? ==> o.data == []
    ensures o.toast.Extracted? ==> o.toast.count == |o.data| && o.data == Normalize(d.rows)
  {
    match d
    case Unreadable => Outcome([], ProcessingError)
    case Sheet(rows) =>
      var records := Normalize(rows);
      Outcome(records, Extracted(|records|))
  }

  /** Every record handed over has a compound code, and there are no more of them than rows. */
  lemma LoadOutcomeRecords(d: Decoded)
    ensures forall r :: r in LoadOutcome(d).data ==> Truthy(r.primaryCompoundCode)
    ensures |LoadOutcome(d).data| <= if d.Sheet? then |d.rows| else 0
  {
  }

  /** `processExcelFile` up to the asynchronous read: processing starts, the shown data stays. */
  method ProcessExcelFile(page: Page, file: File) returns (pending: File)
    modifies page
    ensures pending == file
    ensures page.isProcessing && page.uploadedData == old(page.uploadedData)
  {
    page.HandleProcessingStart();
    pending := file;
  }

  /** The reader's `onload`: the page receives the outcome's records and processing ends. */
  method OnLoad(page: Page, contents: Decoded) returns (toast: Toast)
    modifies page
    ensures toast == LoadOutcome(contents).toast
    ensures page.uploadedData == LoadOutcome(contents).data
    ensures !page.isProcessing
  {
    var outcome := LoadOutcome(contents);
    page.HandleDataProcessed(outcome.data);
    toast := outcome.toast;
  }

  /** `onDrop`: only the first accepted file is processed; no file, nothing happens. */
  method OnDrop(page: Page, accepted: seq<File>) returns (pending: Option<File>)
    modifies page
    ensures accepted == [] ==> pending == None && page.isProcessing == old(page.isProcessing)
    ensures accepted != [] ==> pending == Some(accepted[0]) && page.isProcessing
    ensures page.uploadedData == old(page.uploadedData)
  {
    if |accepted| > 0 {
      var file := ProcessExcelFile(page, accepted[0]);
      pending := Some(file);
    } else {
      pending := None;
    }
  }

  /**
    A whole upload as seen by the page: a drop, then the read of the file it
    started. When the file loads, the previous records are replaced, never
    merged, and processing ends, also after a failed decode. When the read
    itself fails, no handler runs: the page keeps its old records and stays
    processing until another upload completes.
   */
  method Upload(page: Page, accepted: seq<File>) returns (toast: Option<Toast>)
    modifies page
    ensures accepted == [] ==> (toast == None
      && page.uploadedData == old(page.uploadedData) && page.isProcessing == old(page.isProcessing))
    ensures accepted != [] && accepted[0].Readable? ==> (toast == Some(LoadOutcome(accepted[0].contents).toast)
      && page.uploadedData == LoadOutcome(accepted[0].contents).data
      && !page.isProcessing)
    ensures accepted != [] && accepted[0].ReadFails? ==> (toast == None
      && page.uploadedData == old(page.uploadedData) && page.isProcessing)
  {
    var pending := OnDrop(page, accepted);
    if pending.Some? && pending.value.Readable? {
      var t := OnLoad(page, pending.value.contents);
      toast := Some(t);
    } else {
      toast := None;
    }
  }

  /** The example upload: two compounds, the first from both header spellings. */
  const ExampleRows: seq<RawRow> := [
    map["Primary Compound Code" := Str("CPD-1"), "Study Code" := Str("S1")],
    map["primary_compound_code" := Str("CPD-1"), "study_code" := Str("S2")],
    map["Primary Compound Code" := Str("CPD-2")]
  ]

  /** The records the example upload should produce. */
  const ExampleRecords: seq<CaseStudy> := [
    CaseStudy(Str("CPD-1"), EmptyString, Str("S1"), EmptyString),
    CaseStudy(Str("CPD-1"), EmptyString, Str("S2"), EmptyString),
    CaseStudy(Str("CPD-2"), EmptyString, EmptyString, EmptyString)
  ]

  /** The example upload normalises to three records, the alias row included. */
  lemma ExampleNormalizes()
    ensures Normalize(ExampleRows) == ExampleRecords
  {
    assert ToCaseStudy(ExampleRows[0]) == ExampleRecords[0];
    assert ToCaseStudy(ExampleRows[1]) == ExampleRecords[1];
    assert ToCaseStudy(ExampleRows[2]) == ExampleRecords[2];
    assert MapRows(ExampleRows) == ExampleRecords;
    NormalizeKeepsAllIff(ExampleRows);
  }

  /**
    The example's records group into "CPD-1" with S1 then S2 and "CPD-2" with
    one study; three studies over two compounds average round(1.5) = 2.
   */
  lemma ExampleSummarizes()
    ensures Summaries(ExampleRecords) == [
      CompoundSummary("CPD-1", ExampleRecords[..2], 2),
      CompoundSummary("CPD-2", ExampleRecords[2..], 1)]
    ensures StatsOf(ExampleRecords) == Stats(2, 3, 2)
  {
    var r := ExampleRecords;
    assert !IsArrayIndex("CPD-1") && !IsArrayIndex("CPD-2") by {
      assert !IsDigit("CPD-1"[0]) && !IsDigit("CPD-2"[0]);
    }
    assert "CPD-1" != "CPD-2" by { assert "CPD-1"[4] != "CPD-2"[4]; }
    assert r == [r[0], r[1], r[2]];
    assert r[..2] == [r[0], r[1]] && r[2..] == [r[2]];
    TwoCompoundsSummary(r[0], r[1], r[2]);
  }

  /** An unreadable file leaves the page with no records, showing the empty placeholder. */
  method UnreadableUploadShowsEmpty() returns (v: View)
    ensures v == EmptyView
  {
    var page := new Page();
    var toast := Upload(page, [Readable(Unreadable)]);
    assert toast == Some(ProcessingError);
    v := page.CurrentView();
  }

  /** A file whose read fails leaves the page on the processing placeholder until another upload completes. */
  method FailedReadStaysProcessing() returns (v: View, toast: Option<Toast>)
    ensures v == ProcessingView && toast == None
  {
    var page := new Page();
    toast := Upload(page, [ReadFails]);
    v := page.CurrentView();
  }
}
