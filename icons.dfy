/**
 * How the icon route names and labels a downloaded icon: the extension comes
 * from the URL when it is a known image type and otherwise from the
 * download's Content-Disposition filename; the MIME type is the download's
 * Content-Type or is derived from the extension; the file is saved as
 * "<sym>.<ext>" and served as "icon.<ext>".
 */
module Icons {
  import opened Wrappers
  import opened Text

  /** URL suffixes taken as the extension without looking at the download. */
  const IconExtensions: seq<string> := ["jpg", "jpeg", "png", "tiff", "svg", "gif", "webm", "webp"]

  lemma {:induction false} KnownExtensionsHaveNoDot(e: string)
    requires e in IconExtensions
    ensures '.' !in e
  {
    assert e == "jpg" || e == "jpeg" || e == "png" || e == "tiff" || e == "svg" || e == "gif" || e == "webm" || e == "webp";
  }

  /** The Content-Disposition value used when the download has none. */
  const DefaultDisposition := "attachment; filename=image.png"

  /**
   * Response headers as the HTTP client's case-insensitive dictionary stores
   * them: keyed by the lower-cased header name.
   */
  type Headers = h: map<string, string> | forall k :: k in h ==> Lower(k) == k witness map[]

  /** The header names the route asks for, `Content-Type` and `Content-Disposition`, lower-cased. */
  const ContentType := "content-type"
  const ContentDisposition := "content-disposition"

  /** `headers.get(name, default)` for a lower-cased `name`. */
  function HeaderOr(h: Headers, name: string, default: string): string {
    if name in h then h[name] else default
  }

  /**
   * The `filename` parameter of a Content-Disposition value, as the header
   * parser of the standard library reads it; None when the value has no
   * such parameter (the lookup then raises KeyError).
   */
  type FilenameParser = string -> Option<string>

  /** The parser reads the default value's filename as "image.png". */
  predicate ParsesDefault(parse: FilenameParser) {
    parse(DefaultDisposition) == Some("image.png")
  }

  /** The last dot-separated segment of the URL, lower-cased and then stripped. */
  function UrlExtension(url: string): string {
    Strip(Lower(LastSegment(url, '.')))
  }

  /**
   * The extension of the saved icon: the URL's when it is one of
   * IconExtensions, otherwise the text after the last dot of the
   * Content-Disposition filename; None when that filename is missing.
   * An extension found either way contains no dot.
   */
  function ChooseExtension(url: string, h: Headers, parse: FilenameParser): (r: Option<string>)
    ensures r.Some? ==> '.' !in r.value
    ensures UrlExtension(url) in IconExtensions ==> r == Some(UrlExtension(url))
  {
    var uext := UrlExtension(url);
    if uext in IconExtensions then
      KnownExtensionsHaveNoDot(uext);
      Some(uext)
    else
      match parse(HeaderOr(h, ContentDisposition, DefaultDisposition))
      case None => None
      case Some(filename) => Some(LastSegment(filename, '.'))
  }

  /**
   * A URL whose last segment is a known extension in any case and with any
   * surrounding whitespace yields that extension, whatever the download's
   * headers say.
   */
  lemma {:induction false} ExtensionFromUrl(stem: string, segment: string, h: Headers, parse: FilenameParser)
    requires '.' !in segment
    requires Strip(Lower(segment)) in IconExtensions
    ensures ChooseExtension(stem + "." + segment, h, parse) == Some(Strip(Lower(segment)))
  {
    assert stem + "." + segment == stem + ['.'] + segment;
    LastSegmentAfterSep(stem, segment, '.');
  }

  /** Otherwise the extension is the last dot-segment of the Content-Disposition filename. */
  lemma {:induction false} ExtensionFromDisposition(url: string, h: Headers, parse: FilenameParser, filename: string)
    requires UrlExtension(url) !in IconExtensions
    requires ContentDisposition in h && parse(h[ContentDisposition]) == Some(filename)
    ensures ChooseExtension(url, h, parse) == Some(LastSegment(filename, '.'))
  {
  }

  /** With neither a known URL suffix nor a Content-Disposition header the extension is "png". */
  lemma {:induction false} ExtensionDefaultsToPng(url: string, h: Headers, parse: FilenameParser)
    requires ParsesDefault(parse)
    requires UrlExtension(url) !in IconExtensions
    requires ContentDisposition !in h
    ensures ChooseExtension(url, h, parse) == Some("png")
  {
    assert "image.png" == "image" + ['.'] + "png";
    LastSegmentAfterSep("image", "png", '.');
  }

  /** No extension exactly when the URL is not conclusive and the disposition has no filename. */
  lemma {:induction false} NoExtensionExactly(url: string, h: Headers, parse: FilenameParser)
    ensures ChooseExtension(url, h, parse).None? <==>
      UrlExtension(url) !in IconExtensions && parse(HeaderOr(h, ContentDisposition, DefaultDisposition)).None?
  {
  }

  /**
   * The MIME type derived from an extension: "image/" followed by the
   * extension, except "image/svg+xml" for "svg".
   */
  function DefaultMime(ext: string): (m: string)
    ensures |m| > 6 || (|m| == 6 && ext == [])
    ensures m[..6] == "image/"
    ensures m[6..] == if ext == "svg" then "svg+xml" else ext
  {
    if ext == "svg" then "image/svg+xml" else "image/" + ext
  }

  /**
   * Distinct extensions get distinct derived MIME types, except that "svg"
   * and "svg+xml" both get "image/svg+xml".
   */
  lemma {:induction false} DefaultMimeInjective(e1: string, e2: string)
    requires DefaultMime(e1) == DefaultMime(e2)
    ensures e1 == e2 || (e1 == "svg" && e2 == "svg+xml") || (e1 == "svg+xml" && e2 == "svg")
  {
    assert DefaultMime(e1)[6..] == DefaultMime(e2)[6..];
  }

  /** The MIME type served: the download's Content-Type when it has one, otherwise derived from the extension. */
  function Mime(h: Headers, ext: string): (m: string)
    ensures ContentType in h ==> m == h[ContentType]
    ensures ContentType !in h ==> m == DefaultMime(ext)
  {
    HeaderOr(h, ContentType, DefaultMime(ext))
  }

  /** The name the icon is saved under: the route's symbol as given, a dot, the extension. */
  function SaveName(sym: string, ext: string): string {
    Join([sym, ext], '.')
  }

  /** The filename the icon is served with. */
  function AttachmentName(ext: string): string {
    "icon." + ext
  }

  /**
   * Both file names start with their stem and a dot, and a dot-free extension
   * is recovered from either as its last dot-segment.
   */
  lemma {:induction false} FileNamesCarryExtension(sym: string, ext: string)
    requires '.' !in ext
    ensures SaveName(sym, ext) == sym + "." + ext
    ensures LastSegment(SaveName(sym, ext), '.') == ext
    ensures AttachmentName(ext)[..5] == "icon." && LastSegment(AttachmentName(ext), '.') == ext
  {
    assert [sym, ext][1..] == [ext] && Join([ext], '.') == ext;
    assert SaveName(sym, ext) == sym + ['.'] + ext;
    LastSegmentAfterSep(sym, ext, '.');
    assert AttachmentName(ext) == "icon" + ['.'] + ext;
    LastSegmentAfterSep("icon", ext, '.');
  }

  /** Where and how a downloaded icon is saved and served. */
  datatype IconPlan = IconPlan(saveName: string, mime: string, attachmentName: string)

  /**
   * The plan for an icon of route symbol `sym` downloaded from `url` with
   * response headers `h`. There is one exactly when an extension is found,
   * and then the saved name, the served name and the MIME type all agree on
   * that extension, which can be read back from either file name.
   */
  function PlanIcon(sym: string, url: string, h: Headers, parse: FilenameParser): (p: Option<IconPlan>)
    ensures p.Some? <==> ChooseExtension(url, h, parse).Some?
    ensures p.Some? ==>
      var ext := LastSegment(p.value.attachmentName, '.');
      && ChooseExtension(url, h, parse) == Some(ext)
      && p.value.saveName == sym + "." + ext
      && LastSegment(p.value.saveName, '.') == ext
      && p.value.mime == Mime(h, ext)
  {
    match ChooseExtension(url, h, parse)
    case None => None
    case Some(ext) =>
      FileNamesCarryExtension(sym, ext);
      Some(IconPlan(SaveName(sym, ext), Mime(h, ext), AttachmentName(ext)))
  }
}
