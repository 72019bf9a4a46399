# PDF editor core — a Dafny model

This project models the three wrappers at the core of the PDF editor
application.

- **Merge** (`PDFMerger.merge_pdfs`). It validates a list of source paths and
  appends every page of every source, in list order, to a fresh document. Then
  it saves that document.
- **Sign** (`PDFSigner.sign_pdf`, `validate_signature`). It checks the input
  PDF and the PKCS#12 certificate and builds the `pyhanko` argument vector. It
  then maps the subprocess outcome to a result or a `PDFSignerError`.
- **Annotate** (`PDFAnnotator`). This is a session over one opened document.
  Seven `add_*` methods each check a page index and place one item on that
  page. `save` writes the document. `close` releases it, and `__exit__` calls
  `close`.

Everything the wrappers delegate to a library or a process is abstracted:

- The file system is a map from each existing path to what a PDF library
  reads there. That is a page sequence, a reason the PDF library cannot
  parse it, or an operating-system error that stops it being read.
- A page is an opaque identity plus the list of items placed on it.
- The outcome of each save and of each `pyhanko` run is a parameter.

Modules:

- `Wrappers`: Option, Result and Outcome.
- `Paths`: `PurePath.name`, `PurePath.suffix`, lower-casing, and the
  case-insensitive extension test.
- `Decimal`: Python's `str(int)`, used in error messages, and its inverse.
- `Documents`: points, rectangles, colours, annotations, pages, file contents
  and the file system.
- `Merger`, `Signer`, `Annotator`: one module per wrapper.

Three behaviours of the code are easy to miss:

- The checks on each source are interleaved with opening the earlier
  sources; they are not all run before any file is read. A bad third file is
  found after the first two have been opened. Nothing is saved in that case.
- Inside the `try`, the errors "File not found: …", "Not a PDF file: …" and
  "Failed to open …" are plain exceptions, not `PdfError`. The generic
  handler therefore re-raises them as "Unexpected error during merge: " plus
  the original text. Only the two checks before the `try` keep their bare
  messages.
- The signing command has seven fixed leading arguments and three trailing
  ones (`<input> -o <output>`). Its length is therefore 10 + 2 × the number of
  optional values supplied.

## Model

| member | source | states |
|---|---|---|
| `Paths.HasExtensionIff` | src/core/pdf_merger.py:50 | For an extension made of a dot and non-dot characters, `suffix.lower() == ext` holds exactly when the final path component is longer than `ext` and ends in `ext` ignoring ASCII case. Both directions are proved. |
| `Paths.PdfExtensionIff` | src/core/pdf_merger.py:50-51 | A source passes the ".pdf" test exactly when its name has at least one character before a case-insensitive ".pdf" ending. So "A.PDF" passes, and ".pdf" and "file1.txt" fail. |
| `Paths.P12ExtensionIff` | src/core/pdf_signer.py:56-57 | The certificate passes the ".p12" test exactly when its name has at least one character before a case-insensitive ".p12" ending. |
| `Decimal.IntRoundTrip` | src/core/pdf_annotator.py:67 | The rendering of a page number in "Invalid page number: {page_num}", negatives included, reads back as that number. |
| `Decimal.IntToStringInjective` | src/core/pdf_annotator.py:67 | Two page numbers give the same rendered text exactly when they are equal. |
| `Merger.OpenSourceSpec` | src/core/pdf_merger.py:44-58 | For one source, existence is checked first, whatever the name. The extension comes next, then opening. The step succeeds exactly when the path exists, has a ".pdf" suffix and holds a readable PDF, and it then yields that file's pages. A `PdfError` from opening becomes "Failed to open <path>: <reason>". Any other open error, such as an `OSError`, keeps its own text. |
| `Merger.CollectSucceedsIff` | src/core/pdf_merger.py:44-58 | The loop over the sources completes exactly when every source passes its checks and opens. |
| `Merger.CollectConcatenates` | src/core/pdf_merger.py:44-55 | When every source opens, the loop's pages are the concatenation of the sources' pages in list order. |
| `Merger.CollectStopsAtFirstBad` | src/core/pdf_merger.py:44-58 | A failing loop reports the error of the first source in list order that fails. Every earlier source passed. |
| `Merger.CollectPagesSpec` | src/core/pdf_merger.py:44-58 | The three facts above together, for any source list. |
| `Merger.ConcatLength` | src/core/pdf_merger.py:55 | Extending by each source's pages gives as many pages as the sources hold together. |
| `Merger.MergePages` | src/core/pdf_merger.py:35-69 | An empty list fails with "No input files provided", checked before the length. A one-element list fails with "At least 2 PDF files are required for merging". Neither is re-wrapped. Otherwise the merge succeeds exactly when all sources open, giving their concatenated pages with the summed length. Any other failure carries "Unexpected error during merge: " plus the first failing source's message: "File not found: …", "Not a PDF file: …", "Failed to open …: …", or the bare text of an `OSError` from opening. |
| `Merger.MergePdfs` | src/core/pdf_merger.py:22-69 | The output is written only when every source was appended and the save succeeded. Then the output path holds the merged pages. Every failure leaves the file system unchanged. A `PdfError` from the save gets "PDF processing error: "; any other save error gets "Unexpected error during merge: ". |
| `Merger.MergePdfsConvenience` | src/core/pdf_merger.py:72-83 | The module-level function raises "No input files provided" for an empty list, as the convenience test expects, and the "at least 2" error for one file. It succeeds exactly when there are at least two sources, all of them open, and the save succeeds. It then writes the sources' pages in order at the output path. With two or more sources and one that does not open, it raises "Unexpected error during merge: " plus the first bad source's message. With every source open, a `PdfError` from the save gives "PDF processing error: " plus its text and any other save error "Unexpected error during merge: " plus its text. Any failure leaves the file system unchanged. |
| `Merger.MergeWritesConcatenation` | src/core/pdf_merger.py:42-61 | With at least two sources that all open, the merge succeeds. The output path holds the sources' pages in order, as many as they hold together. No other path is created, removed or changed. |
| `Merger.FirstBadSourceAborts` | src/core/pdf_merger.py:44-69 | Suppose the first failing source is missing. Then the merge fails with the prefixed "File not found: <path>" for that source, whatever comes after it. If it exists but lacks the ".pdf" suffix, the message is the prefixed "Not a PDF file: <path>". In both cases nothing is written. |
| `Signer.CheckSignInputs` | src/core/pdf_signer.py:50-57 | The checks run in order: input exists, certificate exists, certificate has a ".p12" suffix in any case. Each has its own message naming the path. All three pass exactly when each condition holds. |
| `Signer.SignCommand` | src/core/pdf_signer.py:60-81 | The command starts with `pyhanko sign addsig --p12-file <cert> --p12-password <password>`, with the password unchanged. It ends with `<input> -o <output>`. Its length is 10 plus 2 per supplied optional value. |
| `Signer.SignCommandRoundTrip` | src/core/pdf_signer.py:60-81 | Reading the command back yields the request: certificate, password, input and output. It also yields the reason, location and contact, with empty or missing values read as absent. |
| `Signer.SignCommandInjective` | src/core/pdf_signer.py:60-81 | Two requests give the same command exactly when they agree once empty optional values are treated as absent. |
| `Signer.OptionalFlagsPresence` | src/core/pdf_signer.py:71-78 | Each of `--reason`, `--location`, `--contact-info` appears in its fixed slot exactly when its value is a non-empty string. |
| `Signer.SignPdf` | src/core/pdf_signer.py:21-98 | A command is launched exactly when the three checks pass, and it is `SignCommand` of the request. A failed check is returned as is. The call succeeds exactly when the checks pass and the tool exits 0. A missing tool gives "pyhanko command not found. Please ensure pyHanko is installed.". A non-zero exit gives "Failed to sign PDF: " plus the captured stderr when that is non-empty, and plus the exception's own text otherwise. |
| `Signer.ChecksPrecedeLaunch` | src/core/pdf_signer.py:50-84 | When a check fails, nothing is launched and the result does not depend on what the tool would have done. |
| `Signer.ValidateSignature` | src/core/pdf_signer.py:101-137 | A missing file fails with "PDF file not found: <path>" and launches nothing. Otherwise the command is exactly `pyhanko sign validate <path>`. Success returns the captured stdout unchanged. A non-zero exit gives "Signature validation failed: " plus the stderr when non-empty, and plus the exception's own text otherwise. A missing tool gives the not-installed message. |
| `Signer.SignPdfConvenience` | src/core/pdf_signer.py:140-156 | The module-level `sign_pdf` is `sign_pdf` with no reason, location or contact. Its command is just the fixed prefix followed by `<input> -o <output>`. |
| `Annotator.Open` | src/core/pdf_annotator.py:33-47 | A missing path fails with "PDF file not found: <path>". A file the library cannot open, whether it rejects the contents or cannot read the path, fails with "Failed to open PDF: <reason>". Otherwise the session holds the file's pages with the handle open. |
| `Annotator.Add` | src/core/pdf_annotator.py:65-74 | An add succeeds exactly when the handle is open and 0 <= page < page count. It then appends the item to that page only: same page count, other pages equal, the page's content kept. On failure the session is unchanged. A negative or too-large index gives "Failed to add <kind>: Invalid page number: <n>". A non-negative index on a closed handle gives the library's closed-document message under the same prefix. |
| `Annotator.AddTextAnnotation` | src/core/pdf_annotator.py:49-74 | The call succeeds exactly when the handle is open and 0 <= page < page count. It then adds exactly one text note with the given position, text and icon to that page, and nothing else changes. On failure nothing changes. A negative or too-large index gives "Failed to add text annotation: Invalid page number: <n>". A non-negative index on a closed handle gives "Failed to add text annotation: " plus the closed-document message. |
| `Annotator.AddHighlight` | src/core/pdf_annotator.py:76-101 | The call succeeds exactly when the handle is open and 0 <= page < page count. It then adds exactly one highlight with the given rectangle and stroke colour to that page, and nothing else changes. On failure nothing changes. A negative or too-large index gives "Failed to add highlight: Invalid page number: <n>". A non-negative index on a closed handle gives "Failed to add highlight: " plus the closed-document message. |
| `Annotator.AddUnderline` | src/core/pdf_annotator.py:103-128 | The call succeeds exactly when the handle is open and 0 <= page < page count. It then adds exactly one underline with the given rectangle and stroke colour to that page, and nothing else changes. On failure nothing changes. A negative or too-large index gives "Failed to add underline: Invalid page number: <n>". A non-negative index on a closed handle gives "Failed to add underline: " plus the closed-document message. |
| `Annotator.AddStrikeout` | src/core/pdf_annotator.py:130-155 | The call succeeds exactly when the handle is open and 0 <= page < page count. It then adds exactly one strikeout with the given rectangle and stroke colour to that page, and nothing else changes. On failure nothing changes. A negative or too-large index gives "Failed to add strikeout: Invalid page number: <n>". A non-negative index on a closed handle gives "Failed to add strikeout: " plus the closed-document message. |
| `Annotator.AddRectangle` | src/core/pdf_annotator.py:157-187 | The call succeeds exactly when the handle is open and 0 <= page < page count. It then adds exactly one rectangle with the given border colour, fill and border width to that page, and nothing else changes. On failure nothing changes. A negative or too-large index gives "Failed to add rectangle: Invalid page number: <n>". A non-negative index on a closed handle gives "Failed to add rectangle: " plus the closed-document message. |
| `Annotator.AddCircle` | src/core/pdf_annotator.py:189-219 | The call succeeds exactly when the handle is open and 0 <= page < page count. It then adds exactly one circle with the given border colour, fill and border width to that page, and nothing else changes. On failure nothing changes. A negative or too-large index gives "Failed to add circle: Invalid page number: <n>". A non-negative index on a closed handle gives "Failed to add circle: " plus the closed-document message. |
| `Annotator.AddFreehandText` | src/core/pdf_annotator.py:221-248 | The call succeeds exactly when the handle is open and 0 <= page < page count. It then adds exactly one text insertion with the given position, text, font size and colour to that page, and nothing else changes. On failure nothing changes. A negative or too-large index gives "Failed to add freehand text: Invalid page number: <n>". A non-negative index on a closed handle gives "Failed to add freehand text: " plus the closed-document message. |
| `Annotator.DefaultStyles` | src/core/pdf_annotator.py:54-227 | The defaults for omitted arguments: the note icon is "Comment"; highlight is yellow (1,1,0); underline is blue (0,0,1); strikeout is red (1,0,0); rectangle and circle are black with no fill and border width 1.0; freehand text is size 11 in black. |
| `Annotator.AddPlacesOneItem` | src/core/pdf_annotator.py:69-70 | A successful add raises the document's total number of items by exactly one. |
| `Annotator.AddsOnDistinctPagesCommute` | src/core/pdf_annotator.py:66-70 | Adds to two different valid pages give the same document in either order. |
| `Annotator.Save` | src/core/pdf_annotator.py:250-263 | Saving returns no session, so the document is not changed. A save succeeds exactly when the handle is open and the write succeeds. It then writes the pages at the output path and touches nothing else. A failure leaves the file system unchanged and says "Failed to save PDF: " plus the reason, or plus the library's "document closed or encrypted" on a closed handle. |
| `Annotator.SaveRepeatable` | src/core/pdf_annotator.py:250-263 | Saving a second time to the same path gives the same file system as saving once. |
| `Annotator.SaveThenOpen` | src/core/pdf_annotator.py:257-259 | A saved document opens again with the same pages, placed items included. |
| `Annotator.Close` | src/core/pdf_annotator.py:265-277 | After `close`, also when run by `__exit__`, the handle is released and the path and pages are kept. Closing a session with no open handle does nothing. |
| `Annotator.ClosedSessionRejects` | src/core/pdf_annotator.py:265-269 | After `close`, an add with a non-negative index fails with the closed-document message, and a save fails. A second close changes nothing. |
| `Annotator.AddTextAnnotationToFile` | src/core/pdf_annotator.py:281-302 | A failed open runs no step and reports the open error. Once the open succeeds, the steps are exactly open, one text note, save when the page index is valid, and close, so `close` runs once, at the end, even when the note or the save fails. An invalid index raises the note's own error, "Failed to add text annotation: Invalid page number: <n>". A failed write raises the save's own error, "Failed to save PDF: " plus the reason. The call succeeds exactly when the file opens, the index is valid and the write succeeds. The output then holds the source's pages with the note appended to that page. Any failure leaves the file system unchanged. |

## Left out

- The GUI (`src/gui/*`, `main.py`) is not part of this model. That includes its zoom clamp, the click-to-page coordinate conversion and the colour conversions. It is UI wiring and floating-point geometry.
- PDF parsing, page copying, serialisation and rendering by the PDF libraries are abstracted. A page is an opaque identity plus its placed items. One `FileContent` value stands for what both libraries read from a file.
- Running `pyhanko` and the cryptography are abstracted. The outcome of each run is an input: tool missing, non-zero exit with stderr and the exception's own text, or exit 0 with stdout.
- `Signer.SignPdf`: the exception's own text (`str(CalledProcessError)`) is taken as an input rather than computed from the command and the exit status. The same holds for `Signer.ValidateSignature`.
- Exceptions from `subprocess.run` other than a missing executable or a non-zero exit are not modelled. An example is a permission error, which propagates without being wrapped.
- `Merger.MergePages`: a failure of `Pdf.new()` is not modelled. It would surface as "PDF processing error: …".
- `Annotator.Add`: failures inside the library's annotation primitives are not modelled. An example is a rectangle the library rejects. With an open handle and a valid index, the add always succeeds.
- `Annotator.Add`: the closed-document message is the text the PDF library raises when a closed document is queried. The model takes it as a fixed constant.
- `Annotator.Close`: the source tests `if self.doc`. The model reads this as "a document handle is held". Python truth-tests an object without `__bool__` through `__len__`. The model already assumes that `len()` of a closed document raises "document closed". If both hold, a second `close` would raise rather than do nothing. So "a second close changes nothing" (`Annotator.ClosedSessionRejects`) is a modelling choice. The same reading means a document with zero pages might never be closed; that is not modelled either.
- Partially written files after a failed save, and orphaned temporary files, are not modelled. A failed save leaves the file system as it was.
- Paths are taken in the normal form `str(Path(p))` produces. Collapsing duplicate or trailing slashes is not modelled.
- `Paths.Name`: only POSIX paths are modelled, split on '/' alone. On Windows, pathlib also splits on '\\' and on a drive, so `C:\x\.pdf` has no suffix there and fails the ".pdf" test, while `Paths.HasExtension` accepts it.
- `Merger.MergePdfs`: each file is named by exactly one string, the key of the file-system map. Symbolic links, `a/../b` spellings and case-insensitive volumes, where two strings name one file, are not modelled. The "no other path changes" clauses of `Merger.MergeWritesConcatenation` and `Annotator.Save` depend on this.
- `Annotator.Add`: the page number in "Invalid page number: <n>" is always rendered in full. Python 3.11 and later, and patched 3.7-3.10 releases, refuse to format an int of more than 4300 digits and raise ValueError instead. The handler would catch it and report "Failed to add …: Exceeds the limit (4300 digits) …". That limit is not modelled.
- `Annotator.Save`: the message for a save on a closed handle is the text the PDF library's own save raises, "document closed or encrypted". The model takes it as a fixed constant. Encrypted documents are not modelled.
- `Paths.HasExtensionIff`: lower-casing covers ASCII letters only. This is exact for the ".pdf" and ".p12" tests, because no other character lower-cases to '.', 'p', 'd', 'f', '1' or '2'.
- Coordinates, colours and border widths are mathematical reals. No floating-point behaviour is modelled.
- The `AnnotationType` enumeration is not used by any modelled operation. The `Annotation` datatype's variants take its place.
- `__enter__` returns the session itself and has no other effect.
- `add_batch_annotations` and `merge_pages` are called by the GUI but are not defined in the core files. They are not part of this model.
- Logging is not modelled.
