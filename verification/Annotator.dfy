/**
  `PDFAnnotator`: a session over one opened document. Each `add_*` checks the
  page index and places one item on that page; `save` writes the document
  without changing it; `close` releases it and runs when the `with` block is
  left.
 */
module Annotator {
  import opened Wrappers
  import opened Paths
  import opened Decimal
  import opened Documents

  /** `PDFAnnotatorError`, carrying its message. */
  datatype AnnotatorError = AnnotatorError(message: string)

  /** The annotator object: the path it was built from, the pages it holds, whether the handle is open. */
  datatype Session = Session(path: Path, pages: seq<Page>, isOpen: bool)

  /** The session after a call and whether the call raised. */
  datatype Change = Change(session: Session, outcome: Outcome<AnnotatorError>)

  /** How `doc.save` ends when the handle is open. */
  datatype WriteOutcome = Written | WriteFailed(reason: string)

  /** The file system after a save and whether the save raised. */
  datatype SaveRun = SaveRun(fs: FileSystem, outcome: Outcome<AnnotatorError>)

  /** The message the PDF library raises when a closed document is used. */
  const ClosedMessage := "document closed"
  /** The message the PDF library's own save raises on a closed document. */
  const SaveClosedMessage := "document closed or encrypted"

  const Yellow := Color(1.0, 1.0, 0.0)
  const Blue := Color(0.0, 0.0, 1.0)
  const Red := Color(1.0, 0.0, 0.0)
  const Black := Color(0.0, 0.0, 0.0)
  const DefaultIcon := "Comment"
  const DefaultFontSize := 11
  const DefaultBorderWidth := 1.0

  /** The constructor: the path must exist and the library must be able to open it. */
  function Open(fs: FileSystem, p: Path): (r: Result<Session, AnnotatorError>)
    ensures p !in fs ==> r == Failure(AnnotatorError("PDF file not found: " + p))
    ensures p in fs && !fs[p].Pdf? ==>
              r == Failure(AnnotatorError("Failed to open PDF: " + fs[p].reason))
    ensures r.Success? <==> p in fs && fs[p].Pdf?
    ensures r.Success? ==> r.value == Session(p, fs[p].pages, true)
  {
    if p !in fs then Failure(AnnotatorError("PDF file not found: " + p))
    else match fs[p]
      case Unreadable(reason) => Failure(AnnotatorError("Failed to open PDF: " + reason))
      case Inaccessible(reason) => Failure(AnnotatorError("Failed to open PDF: " + reason))
      case Pdf(pages) => Success(Session(p, pages, true))
  }

  /** The prefix each `add_*` method's own handler puts before the error it caught. */
  function AddPrefix(a: Annotation): string
  {
    match a
    case TextNote(_, _, _) => "Failed to add text annotation: "
    case Highlight(_, _) => "Failed to add highlight: "
    case Underline(_, _) => "Failed to add underline: "
    case StrikeOut(_, _) => "Failed to add strikeout: "
    case Square(_, _, _, _) => "Failed to add rectangle: "
    case Circle(_, _, _, _) => "Failed to add circle: "
    case FreeText(_, _, _, _) => "Failed to add freehand text: "
  }

  /** The message raised by the method's own handler around `detail`. */
  function AddError(a: Annotation, detail: string): AnnotatorError
  {
    AnnotatorError(AddPrefix(a) + detail)
  }

  /** `page_num < 0 or page_num >= len(self.doc)` rejects the index. */
  function InvalidPage(a: Annotation, pageNum: int): AnnotatorError
  {
    AddError(a, "Invalid page number: " + IntToString(pageNum))
  }

  /**
    `after` is `before` with `a` appended to page `pageNum` and nothing else
    changed: same path, same handle state, same page count, every other page
    equal, and that page keeping its content and its earlier items.
   */
  predicate AddedOnly(before: Session, after: Session, pageNum: int, a: Annotation)
  {
    && 0 <= pageNum < |before.pages|
    && after.path == before.path
    && after.isOpen == before.isOpen
    && |after.pages| == |before.pages|
    && (forall i :: 0 <= i < |before.pages| && i != pageNum ==> after.pages[i] == before.pages[i])
    && after.pages[pageNum].content == before.pages[pageNum].content
    && after.pages[pageNum].annotations == before.pages[pageNum].annotations + [a]
  }

  /**
    The shared body of the seven `add_*` methods. A negative index is rejected
    before the handle is consulted; otherwise a closed handle fails inside
    `len(self.doc)`, and an index past the last page is rejected.
   */
  function Add(s: Session, pageNum: int, a: Annotation): (r: Change)
    ensures r.outcome.Pass? <==> s.isOpen && 0 <= pageNum < |s.pages|
    ensures r.outcome.Pass? ==> AddedOnly(s, r.session, pageNum, a)
    ensures r.outcome.Fail? ==> r.session == s
    ensures pageNum < 0 || (s.isOpen && pageNum >= |s.pages|) ==>
              r.outcome == Fail(InvalidPage(a, pageNum))
    ensures pageNum >= 0 && !s.isOpen ==> r.outcome == Fail(AddError(a, ClosedMessage))
  {
    if pageNum < 0 then Change(s, Fail(InvalidPage(a, pageNum)))
    else if !s.isOpen then Change(s, Fail(AddError(a, ClosedMessage)))
    else if pageNum >= |s.pages| then Change(s, Fail(InvalidPage(a, pageNum)))
    else
      var page := s.pages[pageNum];
      Change(s.(pages := s.pages[pageNum := page.(annotations := page.annotations + [a])]), Pass)
  }

  /** `add_text_annotation`: a sticky note, "Comment" icon unless another is given. */
  function AddTextAnnotation(s: Session, pageNum: int, position: Point, text: string,
                             icon: string := DefaultIcon): (r: Change)
    ensures r.outcome.Pass? <==> s.isOpen && 0 <= pageNum < |s.pages|
    ensures r.outcome.Pass? ==> AddedOnly(s, r.session, pageNum, TextNote(position, text, icon))
    ensures r.outcome.Fail? ==> r.session == s
    ensures pageNum < 0 || (s.isOpen && pageNum >= |s.pages|) ==>
              r.outcome == Fail(AnnotatorError("Failed to add text annotation: "
                                                + ("Invalid page number: " + IntToString(pageNum))))
    ensures pageNum >= 0 && !s.isOpen ==>
              r.outcome == Fail(AnnotatorError("Failed to add text annotation: " + ClosedMessage))
  {
    Add(s, pageNum, TextNote(position, text, icon))
  }

  /** `add_highlight`: yellow unless another colour is given. */
  function AddHighlight(s: Session, pageNum: int, rect: Rect, color: Color := Yellow): (r: Change)
    ensures r.outcome.Pass? <==> s.isOpen && 0 <= pageNum < |s.pages|
    ensures r.outcome.Pass? ==> AddedOnly(s, r.session, pageNum, Highlight(rect, color))
    ensures r.outcome.Fail? ==> r.session == s
    ensures pageNum < 0 || (s.isOpen && pageNum >= |s.pages|) ==>
              r.outcome == Fail(AnnotatorError("Failed to add highlight: "
                                                + ("Invalid page number: " + IntToString(pageNum))))
    ensures pageNum >= 0 && !s.isOpen ==>
              r.outcome == Fail(AnnotatorError("Failed to add highlight: " + ClosedMessage))
  {
    Add(s, pageNum, Highlight(rect, color))
  }

  /** `add_underline`: blue unless another colour is given. */
  function AddUnderline(s: Session, pageNum: int, rect: Rect, color: Color := Blue): (r: Change)
    ensures r.outcome.Pass? <==> s.isOpen && 0 <= pageNum < |s.pages|
    ensures r.outcome.Pass? ==> AddedOnly(s, r.session, pageNum, Underline(rect, color))
    ensures r.outcome.Fail? ==> r.session == s
    ensures pageNum < 0 || (s.isOpen && pageNum >= |s.pages|) ==>
              r.outcome == Fail(AnnotatorError("Failed to add underline: "
                                                + ("Invalid page number: " + IntToString(pageNum))))
    ensures pageNum >= 0 && !s.isOpen ==>
              r.outcome == Fail(AnnotatorError("Failed to add underline: " + ClosedMessage))
  {
    Add(s, pageNum, Underline(rect, color))
  }

  /** `add_strikeout`: red unless another colour is given. */
  function AddStrikeout(s: Session, pageNum: int, rect: Rect, color: Color := Red): (r: Change)
    ensures r.outcome.Pass? <==> s.isOpen && 0 <= pageNum < |s.pages|
    ensures r.outcome.Pass? ==> AddedOnly(s, r.session, pageNum, StrikeOut(rect, color))
    ensures r.outcome.Fail? ==> r.session == s
    ensures pageNum < 0 || (s.isOpen && pageNum >= |s.pages|) ==>
              r.outcome == Fail(AnnotatorError("Failed to add strikeout: "
                                                + ("Invalid page number: " + IntToString(pageNum))))
    ensures pageNum >= 0 && !s.isOpen ==>
              r.outcome == Fail(AnnotatorError("Failed to add strikeout: " + ClosedMessage))
  {
    Add(s, pageNum, StrikeOut(rect, color))
  }

  /** `add_rectangle`: black border of width 1.0 and no fill unless given. */
  function AddRectangle(s: Session, pageNum: int, rect: Rect, color: Color := Black,
                        fill: Option<Color> := None, width: real := DefaultBorderWidth): (r: Change)
    ensures r.outcome.Pass? <==> s.isOpen && 0 <= pageNum < |s.pages|
    ensures r.outcome.Pass? ==> AddedOnly(s, r.session, pageNum, Square(rect, color, fill, width))
    ensures r.outcome.Fail? ==> r.session == s
    ensures pageNum < 0 || (s.isOpen && pageNum >= |s.pages|) ==>
              r.outcome == Fail(AnnotatorError("Failed to add rectangle: "
                                                + ("Invalid page number: " + IntToString(pageNum))))
    ensures pageNum >= 0 && !s.isOpen ==>
              r.outcome == Fail(AnnotatorError("Failed to add rectangle: " + ClosedMessage))
  {
    Add(s, pageNum, Square(rect, color, fill, width))
  }

  /** `add_circle`: black border of width 1.0 and no fill unless given. */
  function AddCircle(s: Session, pageNum: int, rect: Rect, color: Color := Black,
                     fill: Option<Color> := None, width: real := DefaultBorderWidth): (r: Change)
    ensures r.outcome.Pass? <==> s.isOpen && 0 <= pageNum < |s.pages|
    ensures r.outcome.Pass? ==> AddedOnly(s, r.session, pageNum, Circle(rect, color, fill, width))
    ensures r.outcome.Fail? ==> r.session == s
    ensures pageNum < 0 || (s.isOpen && pageNum >= |s.pages|) ==>
              r.outcome == Fail(AnnotatorError("Failed to add circle: "
                                                + ("Invalid page number: " + IntToString(pageNum))))
    ensures pageNum >= 0 && !s.isOpen ==>
              r.outcome == Fail(AnnotatorError("Failed to add circle: " + ClosedMessage))
  {
    Add(s, pageNum, Circle(rect, color, fill, width))
  }

  /** `add_freehand_text`: font size 11 in black unless given. */
  function AddFreehandText(s: Session, pageNum: int, position: Point, text: string,
                           fontSize: int := DefaultFontSize, color: Color := Black): (r: Change)
    ensures r.outcome.Pass? <==> s.isOpen && 0 <= pageNum < |s.pages|
    ensures r.outcome.Pass? ==> AddedOnly(s, r.session, pageNum, FreeText(position, text, fontSize, color))
    ensures r.outcome.Fail? ==> r.session == s
    ensures pageNum < 0 || (s.isOpen && pageNum >= |s.pages|) ==>
              r.outcome == Fail(AnnotatorError("Failed to add freehand text: "
                                                + ("Invalid page number: " + IntToString(pageNum))))
    ensures pageNum >= 0 && !s.isOpen ==>
              r.outcome == Fail(AnnotatorError("Failed to add freehand text: " + ClosedMessage))
  {
    Add(s, pageNum, FreeText(position, text, fontSize, color))
  }

  /** Omitted style arguments take the documented defaults. */
  lemma DefaultStyles(s: Session, pageNum: int, rect: Rect, position: Point, text: string)
    ensures AddTextAnnotation(s, pageNum, position, text) == Add(s, pageNum, TextNote(position, text, "Comment"))
    ensures AddHighlight(s, pageNum, rect) == Add(s, pageNum, Highlight(rect, Color(1.0, 1.0, 0.0)))
    ensures AddUnderline(s, pageNum, rect) == Add(s, pageNum, Underline(rect, Color(0.0, 0.0, 1.0)))
    ensures AddStrikeout(s, pageNum, rect) == Add(s, pageNum, StrikeOut(rect, Color(1.0, 0.0, 0.0)))
    ensures AddRectangle(s, pageNum, rect) == Add(s, pageNum, Square(rect, Color(0.0, 0.0, 0.0), None, 1.0))
    ensures AddCircle(s, pageNum, rect) == Add(s, pageNum, Circle(rect, Color(0.0, 0.0, 0.0), None, 1.0))
    ensures AddFreehandText(s, pageNum, position, text)
         == Add(s, pageNum, FreeText(position, text, 11, Color(0.0, 0.0, 0.0)))
  {
  }

  /** The number of items on all pages together. */
  function TotalAnnotations(pages: seq<Page>): nat
    decreases |pages|
  {
    if |pages| == 0 then 0 else |pages[0].annotations| + TotalAnnotations(pages[1..])
  }

  lemma {:induction false} TotalAfterUpdate(pages: seq<Page>, i: int, p: Page)
    requires 0 <= i < |pages|
    ensures TotalAnnotations(pages[i := p])
         == TotalAnnotations(pages) - |pages[i].annotations| + |p.annotations|
    decreases |pages|
  {
    if i > 0 {
      assert pages[i := p][1..] == pages[1..][i - 1 := p];
      TotalAfterUpdate(pages[1..], i - 1, p);
    } else {
      assert pages[i := p][1..] == pages[1..];
    }
  }

  /** A successful `add_*` places exactly one item in the whole document. */
  lemma AddPlacesOneItem(s: Session, pageNum: int, a: Annotation)
    requires Add(s, pageNum, a).outcome.Pass?
    ensures TotalAnnotations(Add(s, pageNum, a).session.pages) == TotalAnnotations(s.pages) + 1
  {
    var after := Add(s, pageNum, a).session;
    assert after.pages == s.pages[pageNum := after.pages[pageNum]];
    TotalAfterUpdate(s.pages, pageNum, after.pages[pageNum]);
  }

  /** Additions to two different pages do not interfere: either order gives the same document. */
  lemma AddsOnDistinctPagesCommute(s: Session, p: int, a: Annotation, q: int, b: Annotation)
    requires s.isOpen && 0 <= p < |s.pages| && 0 <= q < |s.pages| && p != q
    ensures Add(Add(s, p, a).session, q, b).session == Add(Add(s, q, b).session, p, a).session
  {
  }

  /**
    `save`: the session is not a result, so the document is unchanged; a
    successful save writes its pages at `output` and touches no other path.
   */
  function Save(fs: FileSystem, s: Session, output: Path, w: WriteOutcome): (r: SaveRun)
    ensures r.outcome.Pass? <==> s.isOpen && w.Written?
    ensures r.outcome.Pass? ==> r.fs == fs[output := Pdf(s.pages)]
    ensures r.outcome.Fail? ==> r.fs == fs
    ensures !s.isOpen ==> r.outcome == Fail(AnnotatorError("Failed to save PDF: " + SaveClosedMessage))
    ensures s.isOpen && w.WriteFailed? ==> r.outcome == Fail(AnnotatorError("Failed to save PDF: " + w.reason))
  {
    if !s.isOpen then SaveRun(fs, Fail(AnnotatorError("Failed to save PDF: " + SaveClosedMessage)))
    else match w
      case Written => SaveRun(fs[output := Pdf(s.pages)], Pass)
      case WriteFailed(reason) => SaveRun(fs, Fail(AnnotatorError("Failed to save PDF: " + reason)))
  }

  /** Saving again to the same path changes nothing further. */
  lemma SaveRepeatable(fs: FileSystem, s: Session, output: Path)
    requires s.isOpen
    ensures Save(Save(fs, s, output, Written).fs, s, output, Written) == Save(fs, s, output, Written)
  {
  }

  /** What was saved opens again as the same pages, items included. */
  lemma SaveThenOpen(fs: FileSystem, s: Session, output: Path)
    requires s.isOpen
    ensures Open(Save(fs, s, output, Written).fs, output) == Success(Session(output, s.pages, true))
  {
  }

  /** `close`, which `__exit__` calls: releases the handle if one is held, and keeps the pages. */
  function Close(s: Session): (r: Session)
    ensures !r.isOpen
    ensures r.path == s.path && r.pages == s.pages
    ensures !s.isOpen ==> r == s
  {
    if s.isOpen then s.(isOpen := false) else s
  }

  /** After `close`, no `add_*` with a non-negative index and no `save` succeeds. */
  lemma ClosedSessionRejects(s: Session, pageNum: int, a: Annotation, fs: FileSystem, output: Path, w: WriteOutcome)
    requires pageNum >= 0
    ensures Add(Close(s), pageNum, a).outcome == Fail(AddError(a, ClosedMessage))
    ensures Save(fs, Close(s), output, w).outcome.Fail?
    ensures Close(Close(s)) == Close(s)
  {
  }

  /** The steps the module-level `add_text_annotation` takes. */
  datatype Event = Opened | Annotated | SavedFile | Closed

  /** The file system afterwards, whether the call raised, and the steps taken. */
  datatype AnnotateRun = AnnotateRun(fs: FileSystem, outcome: Outcome<AnnotatorError>, trace: seq<Event>)

  /**
    The module-level `add_text_annotation`: open, add one note at `(x, y)`,
    save, all inside a `with` block, so `close` runs whenever the open
    succeeded, also when the note or the save fails.
   */
  function AddTextAnnotationToFile(fs: FileSystem, pdfPath: Path, pageNum: int, x: real, y: real,
                                   text: string, output: Path, w: WriteOutcome): (r: AnnotateRun)
    ensures Open(fs, pdfPath).Failure? ==>
              r == AnnotateRun(fs, Fail(Open(fs, pdfPath).error), [])
    ensures Open(fs, pdfPath).Success? ==>
              r.trace == [Opened, Annotated]
                         + (if 0 <= pageNum < |fs[pdfPath].pages| then [SavedFile] else [])
                         + [Closed]
    ensures SavedFile in r.trace <==>
              pdfPath in fs && fs[pdfPath].Pdf? && 0 <= pageNum < |fs[pdfPath].pages|
    ensures r.outcome.Pass? <==>
              pdfPath in fs && fs[pdfPath].Pdf? && 0 <= pageNum < |fs[pdfPath].pages| && w.Written?
    ensures r.outcome.Fail? ==> r.fs == fs
    ensures r.outcome.Pass? ==>
              var pages := fs[pdfPath].pages;
              var page := pages[pageNum];
              r.fs == fs[output := Pdf(pages[pageNum := page.(annotations := page.annotations
                                                      + [TextNote(Point(x, y), text, "Comment")])])]
    ensures Open(fs, pdfPath).Success? && !(0 <= pageNum < |fs[pdfPath].pages|) ==>
              r.outcome == Fail(AnnotatorError("Failed to add text annotation: "
                                               + ("Invalid page number: " + IntToString(pageNum))))
    ensures Open(fs, pdfPath).Success? && 0 <= pageNum < |fs[pdfPath].pages| && w.WriteFailed? ==>
              r.outcome == Fail(AnnotatorError("Failed to save PDF: " + w.reason))
  {
    match Open(fs, pdfPath)
    case Failure(e) => AnnotateRun(fs, Fail(e), [])
    case Success(s) =>
      var c := AddTextAnnotation(s, pageNum, Point(x, y), text);
      if c.outcome.Fail? then
        AnnotateRun(fs, c.outcome, [Opened, Annotated, Closed])
      else
        var saved := Save(fs, c.session, output, w);
        AnnotateRun(saved.fs, saved.outcome, [Opened, Annotated, SavedFile, Closed])
  }
}
