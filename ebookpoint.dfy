/**
 * The Ebookpoint adapter: a logged-in test by exact address, a form login,
 * and two shelves (the bookshelf and the archive) whose elements each name
 * a product; a product's formats come from a JSON service, and every
 * format marked OK is downloaded through the size-checked download.
 */
module Ebookpoint {
  import opened Wrappers
  import opened Text
  import Files
  import opened Env
  import opened Bookstore
  import opened Lists

  /** The store entry's addresses this adapter reads besides the common ones. */
  datatype Config = Config(archiveUrl: string, getBookDetailsServiceUrl: string, downloadUrl: string)

  /**
   * One shelf element as the selectors read it: the text of its title
   * span (none when the element has no title span), the text of its author
   * paragraph, and the `onclick` attribute of each of its cover paragraphs.
   */
  datatype Element = Element(title: Option<string>, authors: string, covers: seq<string>)

  /** What `getBookMetadata` reads from an element. */
  datatype Metadata = Metadata(kind: string, id: string, title: string, authors: string, control: string)

  const TYPE_ERROR := "TypeError: Cannot read property of undefined"

  // ---------------------------------------------------------------- login

  /**
   * `checkIfUserIsLoggedIn`: the bookshelf is fetched, and the user is
   * logged in exactly when the final address is the bookshelf address
   * itself, character for character.
   */
  function CheckIfUserIsLoggedIn(s: State, acct: Account): (r: Step<ShelfCheck>)
    ensures r.st == Get(s, acct.bookshelfUrl).st
    ensures r.out.Done? <==> ReplyAt(s.replies, 0).Answer?
    ensures r.out.Done? ==> var resp := ReplyAt(s.replies, 0).response;
      r.out.value.body == resp.body && (r.out.value.isLoggedIn <==> resp.finalUrl == acct.bookshelfUrl)
    ensures r.out.Failed? ==> Contains(r.out.reason, acct.login)
  {
    var a := Get(s, acct.bookshelfUrl);
    match a.reply
    case TransportError(e, _, _) => Step(Failed(Mention("Could not check if ", acct.login, " is logged in. Error: " + e)), a.st)
    case Answer(resp) => Step(Done(ShelfCheck(resp.finalUrl == acct.bookshelfUrl, resp.body)), a.st)
  }

  function LoginForm(acct: Account): map<string, string> {
    map["gdzie" := acct.bookshelfUrl, "edit" := "", "loginemail" := acct.login, "haslo" := acct.password]
  }

  /**
   * `logIn`: the login form is visited, the form posted, and when the post
   * ends exactly on the bookshelf address the bookshelf is fetched again
   * and its body is the result. Every failure rejects.
   */
  function LogIn(s: State, acct: Account): (r: Step<string>)
    ensures !r.out.Stalled?
    ensures var post := ReplyAt(s.replies, 1); var shelf := ReplyAt(s.replies, 2);
      r.out.Done? <==>
        (ReplyAt(s.replies, 0).Answer? && post.Answer? && post.response.finalUrl == acct.bookshelfUrl && shelf.Answer?)
    ensures r.out.Done? ==> r.out.value == ReplyAt(s.replies, 2).response.body
    ensures ReplyAt(s.replies, 0).Answer? && ReplyAt(s.replies, 1).Answer?
            && ReplyAt(s.replies, 1).response.finalUrl != acct.bookshelfUrl
            ==> r.out == Failed(Mention("Could not log in as ", acct.login, ""))
    ensures r.st.disk == s.disk
  {
    var v := VisitLoginForm(s, acct.loginFormUrl);
    match v.out
    case Failed(e) => Step(Failed(e), v.st)
    case Stalled => Step(Stalled, v.st)
    case Done(_) =>
      var p := Post(v.st, acct.loginServiceUrl, LoginForm(acct));
      match p.reply
      case TransportError(e, _, _) => Step(Failed(Mention("Could not log in as ", acct.login, ". Error: " + e)), p.st)
      case Answer(resp) =>
        if resp.finalUrl != acct.bookshelfUrl then Step(Failed(Mention("Could not log in as ", acct.login, "")), p.st)
        else
          var g := Get(p.st, acct.bookshelfUrl);
          match g.reply
          case TransportError(e, _, _) =>
            Step(Failed("Could not get page contents for: " + acct.bookshelfUrl + ". Error: " + e), g.st)
          case Answer(shelf) => Step(Done(shelf.body), g.st)
  }

  /**
   * The exact test is stricter than the common marker test: an address
   * that merely adds a fragment to the bookshelf address counts as logged
   * out here, though it holds no "login" marker when the bookshelf address
   * holds none.
   */
  lemma ExactTestStricter(acct: Account)
    requires !Contains(acct.bookshelfUrl + "#", "login")
    ensures acct.bookshelfUrl + "#" != acct.bookshelfUrl
    ensures MarkerAbsent(acct.bookshelfUrl + "#", "login")
  {
    ContainsIff(acct.bookshelfUrl + "#", "login");
  }

  // ---------------------------------------------------------------- metadata

  /** Does the text start with `modal.showModal(`, the '.' standing for any character? */
  predicate ShowModalAt(s: string) {
    |s| >= 16 && s[..5] == "modal" && s[6..16] == "showModal("
  }

  /**
   * `onclick.replace(/modal.showModal\(|\)|'/g, '')`: one left-to-right
   * pass removing each call prefix, closing parenthesis and quote.
   */
  function CleanOnclick(s: string): (r: string)
    ensures ')' !in r && '\'' !in r
    ensures |r| <= |s|
    decreases |s|
  {
    if s == [] then ""
    else if ShowModalAt(s) then CleanOnclick(s[16..])
    else if s[0] == ')' || s[0] == '\'' then CleanOnclick(s[1..])
    else [s[0]] + CleanOnclick(s[1..])
  }

  /** The comma-split fields of the last cover's `onclick`; none when there is no cover. */
  function CoverFields(covers: seq<string>): seq<string> {
    if covers == [] then [] else SplitOn(CleanOnclick(covers[|covers| - 1]), ",")
  }

  /** `text.trim().replace(/\.$/g, '')`: one final full stop dropped. */
  function TidyText(t: string): (r: string)
    ensures EndsWith(Trim(t), ".") ==> r + "." == Trim(t)
    ensures !EndsWith(Trim(t), ".") ==> r == Trim(t)
  {
    DropSuffix(Trim(t), ".")
  }

  /**
   * `getBookMetadata`: the control value, the lower-cased type and the id
   * are fields 0, 1 and 2 of the last cover's `onclick`; a missing id reads
   * `undefined`. An element without a title span, or whose fields stop
   * before the type, throws.
   */
  function GetBookMetadata(e: Element): (r: Outcome<Metadata>)
    ensures !r.Stalled?
    ensures r.Done? <==> e.title.Some? && |CoverFields(e.covers)| >= 2
    ensures r.Done? ==> var f := CoverFields(e.covers);
      r.value.control == f[0] && r.value.kind == Lower(f[1])
      && r.value.id == (if |f| > 2 then f[2] else "undefined")
      && r.value.title == TidyText(e.title.value) && r.value.authors == TidyText(e.authors)
  {
    var f := CoverFields(e.covers);
    if e.title.None? || |f| < 2 then Failed(TYPE_ERROR)
    else Done(Metadata(Lower(f[1]), if |f| > 2 then f[2] else "undefined",
                       TidyText(e.title.value), TidyText(e.authors), f[0]))
  }

  // ---------------------------------------------------------------- formats

  predicate IsOk(format: map<string, string>) {
    Lookup(format, "status") == "OK"
  }

  function FormatName(format: map<string, string>): string {
    Lookup(format, "format_name")
  }

  /** `.filter(f => f.status == 'OK').map(f => f.format_name)`. */
  function OkFormats(formats: seq<map<string, string>>): seq<string> {
    Map(Filter(formats, IsOk), FormatName)
  }

  /** The names kept are exactly those of the entries marked OK, and there are no more of them than entries. */
  lemma OkFormatsMembers(formats: seq<map<string, string>>, n: string)
    ensures n in OkFormats(formats) <==> exists f :: f in formats && IsOk(f) && FormatName(f) == n
    ensures |OkFormats(formats)| <= |formats|
  {
    var kept := Filter(formats, IsOk);
    if n in OkFormats(formats) {
      var i :| 0 <= i < |kept| && OkFormats(formats)[i] == n;
      assert kept[i] in kept;
    }
    if f :| f in formats && IsOk(f) && FormatName(f) == n {
      assert f in kept;
      var i :| 0 <= i < |kept| && kept[i] == f;
      assert OkFormats(formats)[i] == n;
    }
  }

  /** The order of the entries is kept: the names of two lists joined are those of the first, then the second. */
  lemma OkFormatsAppend(formats: seq<map<string, string>>, more: seq<map<string, string>>)
    ensures OkFormats(formats + more) == OkFormats(formats) + OkFormats(more)
  {
    FilterAppend(formats, more, IsOk);
    var a, b := Filter(formats, IsOk), Filter(more, IsOk);
    assert Map(a + b, FormatName) == Map(a, FormatName) + Map(b, FormatName);
  }

  /**
   * `getBookFileFormats`: the details service for the control value, after
   * a jittered second; a failed fetch or a body that is not JSON rejects.
   */
  function GetBookFileFormats(s: State, cfg: Config, control: string): (r: Step<seq<string>>)
    ensures !r.out.Stalled?
    ensures r.st.disk == s.disk && r.st.replies == Drop(s.replies, 1)
    ensures var reply := ReplyAt(s.replies, 0);
      r.out.Done? <==> reply.Answer? && reply.response.doc.Decoded?
    ensures r.out.Done? ==> r.out.value == OkFormats(ReplyAt(s.replies, 0).response.doc.records)
  {
    var p := GetPageBody(s, ReplaceFirst(cfg.getBookDetailsServiceUrl, "_control_", control), ONE_SECOND, false);
    match p.out
    case Done(resp) =>
      if resp.doc.Decoded? then Step(Done(OkFormats(resp.doc.records)), p.st) else Step(Failed(JSON_ERROR), p.st)
    case Failed(e) => Step(Failed(e), p.st)
    case Stalled => Step(Stalled, p.st)
  }

  // ---------------------------------------------------------------- downloads

  /** `FILE_EXTENSIONS[format]` when it has an entry (mp3 only), else the format itself. */
  function Extension(format: string): (e: string)
    ensures format == "mp3" ==> e == "zip"
    ensures format != "mp3" ==> e == format
  {
    if format == "mp3" then "zip" else format
  }

  const DOWNLOAD_KEYS: seq<string> := ["_bookId_", "_control_", "_fileFormat_"]

  function DownloadValues(id: string, control: string, format: string): map<string, string> {
    map["_bookId_" := id, "_control_" := control, "_fileFormat_" := format]
  }

  /** `checkFileSizeAndDownload`'s address: the template with id, control value and format filled in. */
  function DownloadLink(template: string, id: string, control: string, format: string): string {
    Substitute(template, DOWNLOAD_KEYS, DownloadValues(id, control, format))
  }

  lemma DownloadKeysAreTokens()
    ensures TokenKeys(DOWNLOAD_KEYS)
  {
    DifferAt(DOWNLOAD_KEYS[0], DOWNLOAD_KEYS[1], 1);
    DifferAt(DOWNLOAD_KEYS[0], DOWNLOAD_KEYS[2], 1);
    DifferAt(DOWNLOAD_KEYS[1], DOWNLOAD_KEYS[2], 1);
  }

  /**
   * Every placeholder of the template is replaced in one pass and the rest
   * is kept; the format placeholder receives the format as listed, so an
   * mp3 product is requested as mp3 and stored under a `.zip` name.
   */
  lemma DownloadLinkFills(ps: seq<Piece>, id: string, control: string, format: string)
    requires WellFormed(ps, DOWNLOAD_KEYS)
    ensures DownloadLink(Template(ps), id, control, format) == Filled(ps, DownloadValues(id, control, format))
    ensures DownloadValues(id, control, format)["_fileFormat_"] == format
  {
    DownloadKeysAreTokens();
    SubstituteFillsTemplate(ps, DOWNLOAD_KEYS, DownloadValues(id, control, format));
  }

  function BookName(m: Metadata): string {
    m.title + " - " + m.authors
  }

  /** `createProductFolder`'s path: the first "//" of it squeezed to "/". */
  function ProductDir(st: Settings, bookName: string): string {
    ReplaceFirst(st.booksDir + "/" + st.pathName(bookName), "//", "/")
  }

  function FormatFileName(st: Settings, m: Metadata, format: string): string {
    st.pathName(BookName(m) + "." + Extension(format))
  }

  /**
   * `downloadFiles`: a present, non-empty file is skipped with no request;
   * otherwise the size-checked download of the filled-in address follows.
   */
  function FormatStep(s: State, st: Settings, cfg: Config, m: Metadata, format: string, dir: string): (r: Step<()>)
    ensures !r.out.Stalled?
    ensures Files.ElementExists(s.disk, dir, FormatFileName(st, m, format)) ==> r == Step(Done(()), s)
    ensures !Files.ElementExists(s.disk, dir, FormatFileName(st, m, format)) ==>
      r == CheckSizeAndDownloadFile(s, st.maxFileSize, DownloadLink(cfg.downloadUrl, m.id, m.control, format),
                                    dir, FormatFileName(st, m, format))
    ensures r.st.disk.dirs == s.disk.dirs
  {
    var name := FormatFileName(st, m, format);
    if Files.ElementExists(s.disk, dir, name) then Step(Done(()), s)
    else CheckSizeAndDownloadFile(s, st.maxFileSize, DownloadLink(cfg.downloadUrl, m.id, m.control, format), dir, name)
  }

  /** The formats of one product in order; the first that rejects ends the product. */
  function FormatsStep(s: State, st: Settings, cfg: Config, m: Metadata, formats: seq<string>, dir: string): (r: Step<()>)
    ensures !r.out.Stalled?
    ensures r.st.disk.dirs == s.disk.dirs
    decreases |formats|
  {
    if formats == [] then Step(Done(()), s)
    else
      var r := FormatStep(s, st, cfg, m, formats[0], dir);
      if r.out.Done? then FormatsStep(r.st, st, cfg, m, formats[1..], dir) else r
  }

  /**
   * One pass of `getProductsFromShelf`'s loop: the metadata, the formats
   * marked OK, and, only when there is at least one, the product's folder
   * and its downloads.
   */
  function ElementStep(s: State, st: Settings, cfg: Config, e: Element): (r: Step<()>)
    ensures !r.out.Stalled?
  {
    match GetBookMetadata(e)
    case Done(m) =>
      var f := GetBookFileFormats(s, cfg, m.control);
      (match f.out
       case Done(formats) =>
         if formats == [] then Step(Done(()), f.st)
         else
           var dir := ProductDir(st, BookName(m));
           FormatsStep(EnsureDirectory(f.st, dir), st, cfg, m, formats, dir)
       case Failed(reason) => Step(Failed(reason), f.st)
       case Stalled => Step(Stalled, f.st))
    case Failed(reason) => Step(Failed(reason), s)
    case Stalled => Step(Stalled, s)
  }

  /**
   * `getProductsFromShelf`: every element in order; whatever one element
   * rejects with is logged and the loop goes on, so a shelf walk always
   * resolves.
   */
  function ShelfStep(s: State, st: Settings, cfg: Config, elems: seq<Element>): (r: Step<()>)
    ensures r.out.Done?
    decreases |elems|
  {
    if elems == [] then Step(Done(()), s)
    else ShelfStep(ElementStep(s, st, cfg, elems[0]).st, st, cfg, elems[1..])
  }

  /**
   * `getProducts`: the bookshelf's `.ebooki` elements, then the archive
   * page (fetched after a jittered second) and its `.lista li` elements.
   * `scrape` stands for the selector reading a page body. Only a failed
   * archive fetch rejects.
   */
  function Products(s: State, st: Settings, cfg: Config, scrape: (string, string) -> seq<Element>, body: string): (r: Step<()>)
    ensures !r.out.Stalled?
  {
    var a := ShelfStep(s, st, cfg, scrape(body, ".ebooki"));
    var p := GetPageBody(a.st, cfg.archiveUrl, ONE_SECOND, false);
    match p.out
    case Done(resp) => ShelfStep(p.st, st, cfg, scrape(resp.body, ".lista li"))
    case Failed(e) => Step(Failed(e), p.st)
    case Stalled => Step(Stalled, p.st)
  }

  /** The whole run: the common flow with this adapter's check, login and product walk. */
  function Run(s: State, st: Settings, acct: Account, cfg: Config, scrape: (string, string) -> seq<Element>): Step<()> {
    GetBooks(s, st.cookiesDir, acct,
             s' => CheckIfUserIsLoggedIn(s', acct),
             s' => LogIn(s', acct),
             (s', body) => Products(s', st, cfg, scrape, body))
  }

  // ---------------------------------------------------------------- properties

  /**
   * A product with no format marked OK gets no folder and no download: the
   * disk is left as it was, and the step took the one details request.
   */
  lemma NoFormatsNoFolder(s: State, st: Settings, cfg: Config, e: Element)
    requires GetBookMetadata(e).Done?
    requires GetBookFileFormats(s, cfg, GetBookMetadata(e).value.control).out == Done([])
    ensures ElementStep(s, st, cfg, e).st.disk == s.disk
    ensures ElementStep(s, st, cfg, e).st.replies == Drop(s.replies, 1)
  {
  }

  /**
   * A product whose metadata cannot be read sends nothing and changes
   * nothing, and the shelf walk goes on with the next element.
   */
  lemma UnreadableElementSkipped(s: State, st: Settings, cfg: Config, elems: seq<Element>)
    requires elems != [] && GetBookMetadata(elems[0]).Failed?
    ensures ShelfStep(s, st, cfg, elems) == ShelfStep(s, st, cfg, elems[1..])
  {
  }

  /** Folders are only ever added, and only the product's own folder: */
  lemma ElementFolders(s: State, st: Settings, cfg: Config, e: Element)
    ensures var r := ElementStep(s, st, cfg, e);
      r.st.disk.dirs == s.disk.dirs
      || (GetBookMetadata(e).Done?
          && r.st.disk.dirs == s.disk.dirs + {Files.Key(ProductDir(st, BookName(GetBookMetadata(e).value)))})
  {
    if GetBookMetadata(e).Done? {
      var m := GetBookMetadata(e).value;
      var f := GetBookFileFormats(s, cfg, m.control);
      if f.out.Done? && f.out.value != [] {
        var dir := ProductDir(st, BookName(m));
        var s1 := EnsureDirectory(f.st, dir);
        assert f.st.disk == s.disk;
        assert ElementStep(s, st, cfg, e) == FormatsStep(s1, st, cfg, m, f.out.value, dir);
        assert ElementStep(s, st, cfg, e).st.disk.dirs == s1.disk.dirs;
      }
    }
  }

  // ---------------------------------------------------------------- loops

  /** The format loop of one product. */
  method ProcessFormats(s: State, st: Settings, cfg: Config, m: Metadata, formats: seq<string>, dir: string)
    returns (r: Step<()>)
    ensures r == FormatsStep(s, st, cfg, m, formats, dir)
  {
    r := Step(Done(()), s);
    var i := 0;
    while i < |formats| && r.out.Done?
      invariant 0 <= i <= |formats|
      invariant r.out.Done? ==> FormatsStep(s, st, cfg, m, formats, dir) == FormatsStep(r.st, st, cfg, m, formats[i..], dir)
      invariant !r.out.Done? ==> FormatsStep(s, st, cfg, m, formats, dir) == r
    {
      var next := FormatStep(r.st, st, cfg, m, formats[i], dir);
      assert FormatsStep(r.st, st, cfg, m, formats[i..], dir)
          == if next.out.Done? then FormatsStep(next.st, st, cfg, m, formats[i + 1..], dir) else next by {
        assert formats[i..][0] == formats[i] && formats[i..][1..] == formats[i + 1..];
      }
      r := next;
      i := i + 1;
    }
    if r.out.Done? {
      assert formats[i..] == [];
      r := Step(Done(()), r.st);
    }
  }

  /** The body of the element loop. */
  method ProcessElement(s: State, st: Settings, cfg: Config, e: Element) returns (r: Step<()>)
    ensures r == ElementStep(s, st, cfg, e)
  {
    var meta := GetBookMetadata(e);
    if !meta.Done? {
      return Step(Failed(meta.reason), s);
    }
    var m := meta.value;
    var f := GetBookFileFormats(s, cfg, m.control);
    if !f.out.Done? {
      return Step(Failed(f.out.reason), f.st);
    }
    if f.out.value == [] {
      return Step(Done(()), f.st);
    }
    var dir := ProductDir(st, BookName(m));
    r := ProcessFormats(EnsureDirectory(f.st, dir), st, cfg, m, f.out.value, dir);
  }

  /** `getProductsFromShelf`'s loop; an element that rejects is logged and skipped. */
  method ProcessShelf(s: State, st: Settings, cfg: Config, elems: seq<Element>) returns (r: Step<()>)
    ensures r == ShelfStep(s, st, cfg, elems)
  {
    var cur := s;
    var i := 0;
    while i < |elems|
      invariant 0 <= i <= |elems|
      invariant ShelfStep(s, st, cfg, elems) == ShelfStep(cur, st, cfg, elems[i..])
    {
      var e := ProcessElement(cur, st, cfg, elems[i]);
      assert ShelfStep(cur, st, cfg, elems[i..]) == ShelfStep(e.st, st, cfg, elems[i + 1..]) by {
        assert elems[i..][0] == elems[i] && elems[i..][1..] == elems[i + 1..];
      }
      cur := e.st;
      i := i + 1;
    }
    assert elems[i..] == [];
    r := Step(Done(()), cur);
  }

  /** `getProducts`: the bookshelf, then the archive. */
  method GetProducts(s: State, st: Settings, cfg: Config, scrape: (string, string) -> seq<Element>, body: string)
    returns (r: Step<()>)
    ensures r == Products(s, st, cfg, scrape, body)
  {
    var a := ProcessShelf(s, st, cfg, scrape(body, ".ebooki"));
    var p := GetPageBody(a.st, cfg.archiveUrl, ONE_SECOND, false);
    if !p.out.Done? {
      return Step(Failed(p.out.reason), p.st);
    }
    r := ProcessShelf(p.st, st, cfg, scrape(p.out.value.body, ".lista li"));
  }
}
