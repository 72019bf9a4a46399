/**
  `PDFMerger.merge_pdfs`: validate a list of source paths, append every page
  of every source, in order, to a fresh document and save it.
 */
module Merger {
  import opened Wrappers
  import opened Paths
  import opened Documents

  /** `PDFMergerError`, the one error kind every failure surfaces as. */
  datatype MergerError = MergerError(message: string)

  /** How the final `pdf.save` ends: saved, a `PdfError`, or any other exception. */
  datatype SaveOutcome = Saved | SavePdfError(reason: string) | SaveOtherError(reason: string)

  /** The file system after the call, and whether the call raised. */
  datatype MergeRun = MergeRun(fs: FileSystem, result: Outcome<MergerError>)

  const NoInputMessage := "No input files provided"
  const TooFewMessage := "At least 2 PDF files are required for merging"
  /** Added by the generic handler around the loop and the save. */
  const UnexpectedPrefix := "Unexpected error during merge: "
  /** Added by the `PdfError` handler around the loop and the save. */
  const PdfErrorPrefix := "PDF processing error: "

  /** What one iteration yields for a source: its pages or the message it raised. */
  type SourceResult = Result<seq<Page>, string>

  /**
    One iteration of the loop: existence first, then the extension, then
    opening. The error is the message raised inside the loop, before the
    handler around it re-wraps it. Only a `PdfError` from opening gets the
    "Failed to open" wording; an `OSError` passes through with its own text.
   */
  function OpenSource(fs: FileSystem, p: Path): SourceResult
  {
    if p !in fs then Failure("File not found: " + p)
    else if !HasExtension(p, ".pdf") then Failure("Not a PDF file: " + p)
    else match fs[p]
      case Pdf(pages) => Success(pages)
      case Unreadable(reason) => Failure("Failed to open " + p + ": " + reason)
      case Inaccessible(reason) => Failure(reason)
  }

  /**
    A missing source is reported as missing whatever its name; an existing
    one without the ".pdf" suffix as not a PDF; a source is accepted exactly
    when it exists, has the suffix and is readable, and it yields its pages.
   */
  lemma OpenSourceSpec(fs: FileSystem, p: Path)
    ensures p !in fs ==> OpenSource(fs, p) == Failure("File not found: " + p)
    ensures p in fs && !HasExtension(p, ".pdf") ==> OpenSource(fs, p) == Failure("Not a PDF file: " + p)
    ensures OpenSource(fs, p).Success? <==> p in fs && HasExtension(p, ".pdf") && fs[p].Pdf?
    ensures OpenSource(fs, p).Success? ==> OpenSource(fs, p).value == fs[p].pages
    ensures p in fs && HasExtension(p, ".pdf") && fs[p].Unreadable? ==>
              OpenSource(fs, p) == Failure("Failed to open " + p + ": " + fs[p].reason)
    ensures p in fs && HasExtension(p, ".pdf") && fs[p].Inaccessible? ==>
              OpenSource(fs, p) == Failure(fs[p].reason)
  {
  }

  /** The iteration for every source, in list order. */
  function Checks(fs: FileSystem, files: seq<Path>): (rs: seq<SourceResult>)
    ensures |rs| == |files|
    ensures forall i :: 0 <= i < |files| ==> rs[i] == OpenSource(fs, files[i])
  {
    seq(|files|, i requires 0 <= i < |files| => OpenSource(fs, files[i]))
  }

  /**
    The loop over the iterations' results: pages are appended in order and
    the first failure ends it. The iterations are pure, so having them all at
    hand changes nothing observable.
   */
  function CollectPages(rs: seq<SourceResult>): SourceResult
    decreases |rs|
  {
    if |rs| == 0 then Success([])
    else match rs[0]
      case Failure(e) => Failure(e)
      case Success(pages) =>
        match CollectPages(rs[1..])
        case Failure(e) => Failure(e)
        case Success(rest) => Success(pages + rest)
  }

  predicate AllOpen(rs: seq<SourceResult>)
  {
    forall i :: 0 <= i < |rs| ==> rs[i].Success?
  }

  /** `rs[i]` is the first iteration that fails. */
  predicate FirstBad(rs: seq<SourceResult>, i: int)
  {
    && 0 <= i < |rs|
    && (forall j :: 0 <= j < i ==> rs[j].Success?)
    && rs[i].Failure?
  }

  /** The page sequences of iterations that all succeeded. */
  function Values(rs: seq<SourceResult>): (ss: seq<seq<Page>>)
    requires AllOpen(rs)
    ensures |ss| == |rs|
    ensures forall i :: 0 <= i < |rs| ==> ss[i] == rs[i].value
  {
    seq(|rs|, i requires 0 <= i < |rs| => rs[i].value)
  }

  /** Reference concatenation of page sequences. */
  function Concat(ss: seq<seq<Page>>): seq<Page>
    decreases |ss|
  {
    if |ss| == 0 then [] else ss[0] + Concat(ss[1..])
  }

  function SumLengths(ss: seq<seq<Page>>): nat
    decreases |ss|
  {
    if |ss| == 0 then 0 else |ss[0]| + SumLengths(ss[1..])
  }

  lemma {:induction false} ConcatLength(ss: seq<seq<Page>>)
    ensures |Concat(ss)| == SumLengths(ss)
    decreases |ss|
  {
    if |ss| > 0 {
      ConcatLength(ss[1..]);
    }
  }

  /** Every source opening is exactly what makes the loop succeed. */
  lemma {:induction false} CollectSucceedsIff(rs: seq<SourceResult>)
    ensures CollectPages(rs).Success? <==> AllOpen(rs)
    decreases |rs|
  {
    if |rs| > 0 {
      var tail := rs[1..];
      CollectSucceedsIff(tail);
      assert forall i :: 0 < i < |rs| ==> rs[i] == tail[i - 1];
    }
  }

  /** On success the loop has appended the sources' pages in list order. */
  lemma {:induction false} CollectConcatenates(rs: seq<SourceResult>)
    requires AllOpen(rs)
    ensures CollectPages(rs) == Success(Concat(Values(rs)))
    decreases |rs|
  {
    if |rs| > 0 {
      var tail := rs[1..];
      assert AllOpen(tail);
      CollectConcatenates(tail);
      assert Values(rs)[1..] == Values(tail);
    }
  }

  /** A failing loop reports the error of the first source that fails. */
  lemma {:induction false} CollectStopsAtFirstBad(rs: seq<SourceResult>)
    requires CollectPages(rs).Failure?
    ensures exists i :: FirstBad(rs, i) && CollectPages(rs).error == rs[i].error
    decreases |rs|
  {
    if rs[0].Failure? {
      assert FirstBad(rs, 0);
    } else {
      var tail := rs[1..];
      CollectStopsAtFirstBad(tail);
      var k :| FirstBad(tail, k) && CollectPages(tail).error == tail[k].error;
      assert forall j :: 0 < j <= k ==> rs[j] == tail[j - 1];
      assert FirstBad(rs, k + 1);
    }
  }

  /**
    The loop succeeds exactly when every source opens, and then yields their
    pages concatenated in list order; otherwise it fails with the error of the
    first source that fails.
   */
  lemma CollectPagesSpec(rs: seq<SourceResult>)
    ensures CollectPages(rs).Success? <==> AllOpen(rs)
    ensures AllOpen(rs) ==> CollectPages(rs).value == Concat(Values(rs))
    ensures CollectPages(rs).Failure? ==>
              exists i :: FirstBad(rs, i) && CollectPages(rs).error == rs[i].error
  {
    CollectSucceedsIff(rs);
    if AllOpen(rs) {
      CollectConcatenates(rs);
    } else {
      CollectStopsAtFirstBad(rs);
    }
  }

  /** There is at most one first failing source. */
  lemma FirstBadUnique(rs: seq<SourceResult>, i: int, j: int)
    requires FirstBad(rs, i) && FirstBad(rs, j)
    ensures i == j
  {
  }

  /** Every source opens. */
  predicate AllSourcesOpen(fs: FileSystem, files: seq<Path>)
  {
    AllOpen(Checks(fs, files))
  }

  /** The pages of each source, one sequence per path, when all open. */
  function SourcePages(fs: FileSystem, files: seq<Path>): (ss: seq<seq<Page>>)
    requires AllSourcesOpen(fs, files)
    ensures |ss| == |files|
    ensures forall i :: 0 <= i < |files| ==> files[i] in fs && ss[i] == fs[files[i]].pages
  {
    forall i | 0 <= i < |files|
      ensures files[i] in fs && OpenSource(fs, files[i]).value == fs[files[i]].pages
    {
      OpenSourceSpec(fs, files[i]);
    }
    Values(Checks(fs, files))
  }

  /**
    Everything before the save: the two checks outside the `try`, whose
    messages are not re-wrapped, then the loop, whose errors the generic
    handler re-raises with `UnexpectedPrefix`.
   */
  function MergePages(fs: FileSystem, files: seq<Path>): (r: Result<seq<Page>, MergerError>)
    ensures |files| == 0 ==> r == Failure(MergerError(NoInputMessage))
    ensures |files| == 1 ==> r == Failure(MergerError(TooFewMessage))
    ensures r.Success? <==> |files| >= 2 && AllSourcesOpen(fs, files)
    ensures r.Success? ==> r.value == Concat(SourcePages(fs, files))
    ensures r.Success? ==> |r.value| == SumLengths(SourcePages(fs, files))
    ensures |files| >= 2 && r.Failure? ==>
              exists i :: FirstBad(Checks(fs, files), i)
                       && r.error.message == UnexpectedPrefix + OpenSource(fs, files[i]).error
  {
    var rs := Checks(fs, files);
    CollectPagesSpec(rs);
    if |files| == 0 then Failure(MergerError(NoInputMessage))
    else if |files| < 2 then Failure(MergerError(TooFewMessage))
    else match CollectPages(rs)
      case Failure(e) => Failure(MergerError(UnexpectedPrefix + e))
      case Success(pages) =>
        ConcatLength(SourcePages(fs, files));
        Success(pages)
  }

  /**
    `PDFMerger.merge_pdfs(files, output)`. The output is written only once
    every source has been appended, and a failed call leaves the file system
    as it was.
   */
  function MergePdfs(fs: FileSystem, files: seq<Path>, output: Path, save: SaveOutcome): (r: MergeRun)
    ensures r.result.Pass? <==> MergePages(fs, files).Success? && save.Saved?
    ensures r.result.Pass? ==> r.fs == fs[output := Pdf(MergePages(fs, files).value)]
    ensures r.result.Fail? ==> r.fs == fs
    ensures MergePages(fs, files).Failure? ==> r.result == Fail(MergePages(fs, files).error)
    ensures MergePages(fs, files).Success? && save.SavePdfError? ==>
              r.result == Fail(MergerError(PdfErrorPrefix + save.reason))
    ensures MergePages(fs, files).Success? && save.SaveOtherError? ==>
              r.result == Fail(MergerError(UnexpectedPrefix + save.reason))
  {
    match MergePages(fs, files)
    case Failure(e) => MergeRun(fs, Fail(e))
    case Success(pages) =>
      match save
      case Saved => MergeRun(fs[output := Pdf(pages)], Pass)
      case SavePdfError(reason) => MergeRun(fs, Fail(MergerError(PdfErrorPrefix + reason)))
      case SaveOtherError(reason) => MergeRun(fs, Fail(MergerError(UnexpectedPrefix + reason)))
  }

  /**
    The module-level `merge_pdfs`, which delegates to the method: an empty
    list raises the "no input files" error, and a call succeeds exactly when
    there are at least two sources, all of them open, and the save succeeds,
    writing their pages in order at the output path. Otherwise it raises what
    the method raises: the first bad source's message or the save's error,
    each under its handler's prefix.
   */
  function MergePdfsConvenience(fs: FileSystem, files: seq<Path>, output: Path, save: SaveOutcome): (r: MergeRun)
    ensures |files| == 0 ==> r == MergeRun(fs, Fail(MergerError(NoInputMessage)))
    ensures |files| == 1 ==> r == MergeRun(fs, Fail(MergerError(TooFewMessage)))
    ensures r.result.Pass? <==> |files| >= 2 && AllSourcesOpen(fs, files) && save.Saved?
    ensures r.result.Pass? ==> r.fs == fs[output := Pdf(Concat(SourcePages(fs, files)))]
    ensures r.result.Fail? ==> r.fs == fs
    ensures |files| >= 2 && !AllSourcesOpen(fs, files) ==>
              exists i :: FirstBad(Checks(fs, files), i)
                       && r.result == Fail(MergerError(UnexpectedPrefix + OpenSource(fs, files[i]).error))
    ensures |files| >= 2 && AllSourcesOpen(fs, files) && save.SavePdfError? ==>
              r.result == Fail(MergerError(PdfErrorPrefix + save.reason))
    ensures |files| >= 2 && AllSourcesOpen(fs, files) && save.SaveOtherError? ==>
              r.result == Fail(MergerError(UnexpectedPrefix + save.reason))
  {
    MergePdfs(fs, files, output, save)
  }

  /**
    A successful merge writes, at the output path only, the sources' pages in
    list order, as many as the sources hold together.
   */
  lemma MergeWritesConcatenation(fs: FileSystem, files: seq<Path>, output: Path)
    requires |files| >= 2 && AllSourcesOpen(fs, files)
    ensures MergePdfs(fs, files, output, Saved).result.Pass?
    ensures output in MergePdfs(fs, files, output, Saved).fs
    ensures MergePdfs(fs, files, output, Saved).fs[output] == Pdf(Concat(SourcePages(fs, files)))
    ensures |MergePdfs(fs, files, output, Saved).fs[output].pages| == SumLengths(SourcePages(fs, files))
    ensures forall q :: q != output ==>
              (q in MergePdfs(fs, files, output, Saved).fs <==> q in fs)
    ensures forall q :: q != output && q in fs ==> MergePdfs(fs, files, output, Saved).fs[q] == fs[q]
  {
  }

  /**
    The first missing or non-PDF source aborts the merge with its message
    re-wrapped by the generic handler, whatever follows it in the list.
   */
  lemma FirstBadSourceAborts(fs: FileSystem, files: seq<Path>, i: int, output: Path, save: SaveOutcome)
    requires |files| >= 2 && FirstBad(Checks(fs, files), i)
    ensures MergePdfs(fs, files, output, save).fs == fs
    ensures files[i] !in fs ==>
              MergePdfs(fs, files, output, save).result
              == Fail(MergerError(UnexpectedPrefix + ("File not found: " + files[i])))
    ensures files[i] in fs && !HasExtension(files[i], ".pdf") ==>
              MergePdfs(fs, files, output, save).result
              == Fail(MergerError(UnexpectedPrefix + ("Not a PDF file: " + files[i])))
  {
    OpenSourceSpec(fs, files[i]);
    var r := MergePages(fs, files);
    assert r.Failure?;
    var k :| FirstBad(Checks(fs, files), k) && r.error.message == UnexpectedPrefix + OpenSource(fs, files[k]).error;
    FirstBadUnique(Checks(fs, files), i, k);
  }
}
