/**
  The entities the three wrappers share. Page contents are opaque: a page is
  an identity plus the list of markups placed on it, and a file system maps
  each existing path to what the PDF libraries would read from it.
 */
module Documents {
  import opened Wrappers
  import opened Paths

  /** A position in PDF page space. */
  datatype Point = Point(x: real, y: real)

  /** A rectangle `(x0, y0, x1, y1)` in PDF page space. */
  datatype Rect = Rect(x0: real, y0: real, x1: real, y1: real)

  /** An RGB colour with channels in 0..1. */
  datatype Color = Color(r: real, g: real, b: real)

  /**
    One item placed on a page by the annotator. `FreeText` is text drawn into
    the page content rather than an annotation object, but it is placed on a
    page the same way.
   */
  datatype Annotation =
    | TextNote(position: Point, text: string, icon: string)
    | Highlight(rect: Rect, stroke: Color)
    | Underline(rect: Rect, stroke: Color)
    | StrikeOut(rect: Rect, stroke: Color)
    | Square(rect: Rect, stroke: Color, fill: Option<Color>, width: real)
    | Circle(rect: Rect, stroke: Color, fill: Option<Color>, width: real)
    | FreeText(position: Point, text: string, fontSize: int, color: Color)

  /** A page: its opaque content and the items placed on it, in order. */
  datatype Page = Page(content: nat, annotations: seq<Annotation>)

  /**
    What a PDF library reads from an existing path: a document, a file the
    library rejects as not a valid PDF (`PdfError` and its kin), or a path the
    operating system will not let it read, such as a directory or a file
    without read permission (an `OSError`).
   */
  datatype FileContent =
    | Pdf(pages: seq<Page>)
    | Unreadable(reason: string)
    | Inaccessible(reason: string)

  /** Existing paths and their contents; a path not in the map does not exist. */
  type FileSystem = map<Path, FileContent>
}
