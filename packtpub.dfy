/**
 * The PacktPub adapter: a token login on a JSON service, a bookshelf read
 * 25 products at a time, a renewed token pair before every product, and for
 * each of a product's file types a probed, size-gated, streamed download.
 */
module PacktPub {
  import opened Wrappers
  import opened Text
  import Files
  import opened Env
  import opened Bookstore

  /** The store entry's service addresses this adapter reads besides the common ones. */
  datatype Config = Config(
    bookshelfServiceUrl: string, tokensServiceUrl: string,
    typesServiceUrl: string, productDownloadServiceUrl: string)

  /** The access token sent with every request and the token that renews it. */
  datatype Tokens = Tokens(access: string, refresh: string)

  const DELAY: nat := ONE_SECOND

  /** How far the bookshelf offset moves after each page. */
  const PAGE_SIZE: nat := 25

  /** The file extension of each downloadable item type. */
  const FILE_EXTENSIONS: map<string, string> :=
    map["code" := "code.zip", "epub" := "epub", "mobi" := "mobi", "pdf" := "pdf", "video" := "zip"]

  /** `FILE_EXTENSIONS[type]` inside a template: an unknown type spells `undefined`. */
  function Extension(fileType: string): (e: string)
    ensures fileType == "code" ==> e == "code.zip"
    ensures fileType == "video" ==> e == "zip"
    ensures fileType == "epub" || fileType == "mobi" || fileType == "pdf" ==> e == fileType
    ensures fileType !in FILE_EXTENSIONS ==> e == "undefined"
  {
    Lookup(FILE_EXTENSIONS, fileType)
  }

  // ---------------------------------------------------------------- login

  /** This adapter's check sends nothing and always answers "not logged in". */
  function CheckIfUserIsLoggedIn(s: State): (r: Step<ShelfCheck>)
    ensures r.st == s
    ensures r.out.Done? && !r.out.value.isLoggedIn
  {
    Step(Done(ShelfCheck(false, "")), s)
  }

  function LoginJson(acct: Account): map<string, string> {
    map["username" := acct.login, "password" := acct.password]
  }

  function StatusMessage(status: nat): string {
    "Got response code " + NatToString(status) + " while getting access token"
  }

  /**
   * `logIn`: an OPTIONS probe of the login service, then the JSON login
   * POST. A failed probe rejects naming the login; the POST's own failure
   * is caught by nothing, so the step never settles; an answer resolves
   * with its decoded body exactly when its status is 200.
   */
  function LogIn(s: State, acct: Account): (r: Step<Doc>)
    ensures var probe := ReplyAt(s.replies, 0);
      probe.TransportError? ==> r.out == Failed(Mention("Could not log in as ", acct.login, ". Error: " + probe.reason))
    ensures var probe := ReplyAt(s.replies, 0); var post := ReplyAt(s.replies, 1);
      probe.Answer? ==> (
        (post.TransportError? ==> r.out.Stalled?)
        && (post.Answer? ==> (r.out.Done? <==> post.response.status == 200))
        && (post.Answer? && post.response.status != 200 ==> r.out == Failed(StatusMessage(post.response.status))))
    ensures r.out.Done? ==> r.out.value == ReplyAt(s.replies, 1).response.doc
    ensures r.st.disk == s.disk
  {
    var o := Send(s, OPTIONS, acct.loginServiceUrl, Plain);
    match o.reply
    case TransportError(e, _, _) => Step(Failed(Mention("Could not log in as ", acct.login, ". Error: " + e)), o.st)
    case Answer(_) =>
      var p := Send(o.st, POST, acct.loginServiceUrl, FormOf(LoginJson(acct)));
      match p.reply
      case TransportError(_, _, _) => Step(Stalled, p.st)
      case Answer(resp) =>
        if resp.status == 200 then Step(Done(resp.doc), p.st)
        else Step(Failed(StatusMessage(resp.status)), p.st)
  }

  /** `body.data.access` and `body.data.refresh`, when the body holds a data object. */
  function TokensOf(doc: Doc): Option<Tokens> {
    if doc.Decoded? && "data.access" in doc.fields && "data.refresh" in doc.fields
    then Some(Tokens(doc.fields["data.access"], doc.fields["data.refresh"])) else None
  }

  /** The refresh POST: the refresh token in the JSON body, the access token as bearer. */
  function RefreshOptions(t: Tokens): Options {
    BearerOf(t.access).(form := map["refresh" := t.refresh])
  }

  /**
   * `getNewTokens`: an answer with status 200 resolves with the pair it
   * carries and any other status rejects. A failed request, or a 200 whose
   * body holds no pair (the type error is thrown where nothing catches it),
   * leaves the step unsettled.
   */
  function GetNewTokens(s: State, cfg: Config, t: Tokens): (r: Step<Tokens>)
    ensures r.st == Send(s, POST, cfg.tokensServiceUrl, RefreshOptions(t)).st
    ensures var a := ReplyAt(s.replies, 0);
      (r.out.Done? <==> a.Answer? && a.response.status == 200 && TokensOf(a.response.doc).Some?)
      && (r.out.Done? ==> r.out.value == TokensOf(a.response.doc).value)
      && (r.out.Failed? <==> a.Answer? && a.response.status != 200)
  {
    var p := Send(s, POST, cfg.tokensServiceUrl, RefreshOptions(t));
    match p.reply
    case TransportError(_, _, _) => Step(Stalled, p.st)
    case Answer(resp) =>
      if resp.status != 200 then Step(Failed(StatusMessage(resp.status)), p.st)
      else
        match TokensOf(resp.doc)
        case Some(n) => Step(Done(n), p.st)
        case None => Step(Stalled, p.st)
  }

  // ---------------------------------------------------------------- services

  /** A bookshelf page: the total `count` (when it is a number) and the products listed. */
  datatype Shelf = Shelf(count: Option<nat>, books: seq<map<string, string>>)

  function Count(doc: Doc): Option<nat> {
    if doc.Decoded? && "count" in doc.fields && IsDigits(doc.fields["count"])
    then Some(DigitsValue(doc.fields["count"])) else None
  }

  function ShelfUrl(cfg: Config, offset: nat): string {
    ReplaceFirst(cfg.bookshelfServiceUrl, "{offset}", NatToString(offset))
  }

  /**
   * `getBookshelfContents`: an OPTIONS probe, then the GET with the access
   * token. Neither request has a rejection handler and the parse runs
   * inside a callback, so any failure leaves the step unsettled; it never
   * rejects. A page that arrives took exactly the two requests.
   */
  function GetBookshelfContents(s: State, cfg: Config, access: string, offset: nat): (r: Step<Shelf>)
    ensures !r.out.Failed?
    ensures var page := ReplyAt(s.replies, 1);
      r.out.Done? <==> ReplyAt(s.replies, 0).Answer? && page.Answer? && page.response.doc.Decoded?
    ensures r.out.Done? ==>
      var doc := ReplyAt(s.replies, 1).response.doc;
      r.out.value == Shelf(Count(doc), doc.records)
      && r.st.replies == Drop(s.replies, 2) && |s.replies| >= 2
      && r.st.trace == s.trace + [Request(OPTIONS, ShelfUrl(cfg, offset), Plain),
                                  Request(GET, ShelfUrl(cfg, offset), BearerOf(access))]
    ensures r.st.disk == s.disk && |r.st.replies| <= |s.replies|
  {
    var url := ShelfUrl(cfg, offset);
    var o := Send(s, OPTIONS, url, Plain);
    if o.reply.TransportError? then Step(Stalled, o.st)
    else
      var g := Send(o.st, GET, url, BearerOf(access));
      match g.reply
      case TransportError(_, _, _) => Step(Stalled, g.st)
      case Answer(resp) =>
        if resp.doc.Decoded? then Step(Done(Shelf(Count(resp.doc), resp.doc.records)), g.st)
        else Step(Stalled, g.st)
  }

  /**
   * A probed JSON service read by `getBookDetails` and `getDownloadUrl`: a
   * failed OPTIONS probe is caught by nothing and leaves the step
   * unsettled; a failed GET or a body that does not parse rejects.
   */
  function ProbedGet(s: State, url: string, access: string): (r: Step<Doc>)
    ensures var probe := ReplyAt(s.replies, 0); var get := ReplyAt(s.replies, 1);
      (probe.TransportError? ==> r.out.Stalled?)
      && (probe.Answer? && get.TransportError? ==> r.out == Failed(get.reason))
      && (probe.Answer? && get.Answer? ==> (r.out.Done? <==> get.response.doc.Decoded?))
    ensures r.out.Done? ==> r.out.value == ReplyAt(s.replies, 1).response.doc && r.out.value.Decoded?
    ensures r.st.disk == s.disk && |r.st.replies| <= |s.replies|
  {
    var o := Send(s, OPTIONS, url, Plain);
    if o.reply.TransportError? then Step(Stalled, o.st)
    else
      var g := Send(o.st, GET, url, BearerOf(access));
      match g.reply
      case TransportError(e, _, _) => Step(Failed(e), g.st)
      case Answer(resp) =>
        if resp.doc.Decoded? then Step(Done(resp.doc), g.st) else Step(Failed(JSON_ERROR), g.st)
  }

  /** `getBookDetails`: the file types of the product's first data entry. */
  function GetBookDetails(s: State, cfg: Config, access: string, isbn: string): (r: Step<seq<string>>)
    ensures var d := ProbedGet(s, ReplaceFirst(cfg.typesServiceUrl, "{isbn}", isbn), access);
      r.st == d.st
      && (r.out.Done? <==> d.out.Done?) && (r.out.Stalled? <==> d.out.Stalled?)
      && (r.out.Done? ==> r.out.value == d.out.value.values)
  {
    var d := ProbedGet(s, ReplaceFirst(cfg.typesServiceUrl, "{isbn}", isbn), access);
    match d.out
    case Done(doc) => Step(Done(doc.values), d.st)
    case Failed(e) => Step(Failed(e), d.st)
    case Stalled => Step(Stalled, d.st)
  }

  function DownloadServiceUrl(cfg: Config, isbn: string, fileType: string): string {
    ReplaceFirst(ReplaceFirst(cfg.productDownloadServiceUrl, "{isbn}", isbn), "{type}", fileType)
  }

  /** `getDownloadUrl`: the `data` of the answer, spelled `undefined` when it is missing. */
  function GetDownloadUrl(s: State, cfg: Config, access: string, isbn: string, fileType: string): (r: Step<string>)
    ensures var d := ProbedGet(s, DownloadServiceUrl(cfg, isbn, fileType), access);
      r.st == d.st
      && (r.out.Done? <==> d.out.Done?) && (r.out.Stalled? <==> d.out.Stalled?)
      && (r.out.Done? ==> r.out.value == Lookup(d.out.value.fields, "data"))
  {
    var d := ProbedGet(s, DownloadServiceUrl(cfg, isbn, fileType), access);
    match d.out
    case Done(doc) => Step(Done(Lookup(doc.fields, "data")), d.st)
    case Failed(e) => Step(Failed(e), d.st)
    case Stalled => Step(Stalled, d.st)
  }

  // ---------------------------------------------------------------- one item

  /**
   * This adapter's ceiling, `fileSize <= maxFileSize`: inclusive, so it
   * admits everything the common strict ceiling admits and, besides, a file
   * of exactly the maximum size. A missing length never passes.
   */
  predicate SizeAtMost(contentLength: Option<nat>, maxFileSize: nat)
    ensures SizeBelow(contentLength, maxFileSize) ==> SizeAtMost(contentLength, maxFileSize)
    ensures SizeAtMost(contentLength, maxFileSize) && !SizeBelow(contentLength, maxFileSize)
            <==> contentLength == Some(maxFileSize)
  {
    contentLength.Some? && contentLength.value <= maxFileSize
  }

  /**
   * `downloadBookshelfItemFile`: a HEAD with the token for the size (its
   * failure is caught by nothing), then a streamed GET into `dir/name` when
   * the size passes the ceiling. Nothing but that one file changes.
   */
  function DownloadItemFile(s: State, url: string, access: string, dir: string, name: string, maxFileSize: nat): (r: Step<()>)
    ensures !r.out.Failed?
    ensures var head := ReplyAt(s.replies, 0);
      head.Answer? && SizeAtMost(head.response.contentLength, maxFileSize) ==>
        r == StreamTo(Send(s, HEAD, url, BearerOf(access)).st, GET, url, BearerOf(access), dir + "/" + name)
    ensures var head := ReplyAt(s.replies, 0);
      !(head.Answer? && SizeAtMost(head.response.contentLength, maxFileSize)) ==>
        r.st.disk == s.disk && r.st.replies == Drop(s.replies, 1)
    ensures forall k :: k in r.st.disk.files && k != Files.Key(dir + "/" + name) ==>
      k in s.disk.files && r.st.disk.files[k] == s.disk.files[k]
    ensures r.st.disk.dirs == s.disk.dirs && |r.st.replies| <= |s.replies|
  {
    var h := Send(s, HEAD, url, BearerOf(access));
    match h.reply
    case TransportError(_, _, _) => Step(Stalled, h.st)
    case Answer(resp) =>
      if SizeAtMost(resp.contentLength, maxFileSize) then StreamTo(h.st, GET, url, BearerOf(access), dir + "/" + name)
      else Step(Done(()), h.st)
  }

  function ItemTitle(st: Settings, book: map<string, string>): string {
    Trim(st.pathName(Lookup(book, "productName")))
  }

  function ItemDir(st: Settings, book: map<string, string>): string {
    st.booksDir + "/" + ItemTitle(st, book)
  }

  function ItemFileName(st: Settings, book: map<string, string>, fileType: string): string {
    st.pathName(ItemTitle(st, book) + "." + Extension(fileType))
  }

  /**
   * `downloadBookshelfItem`: the file is looked for only when the product's
   * directory exists; a missing directory is created and the file counted
   * absent. A present file is skipped with no request; an absent one is
   * fetched after a pause. Only the product's directory and that one file
   * can change on disk.
   */
  function ItemStep(s: State, st: Settings, cfg: Config, access: string,
                    book: map<string, string>, fileType: string): (r: Step<()>)
    ensures var dir := ItemDir(st, book);
      Files.DirectoryExists(s.disk, dir) && Files.ElementExists(s.disk, dir, ItemFileName(st, book, fileType))
      <==> r == Step(Done(()), s)
    ensures var dir := ItemDir(st, book);
      r.st.disk.dirs == if Files.DirectoryExists(s.disk, dir) then s.disk.dirs else s.disk.dirs + {Files.Key(dir)}
    ensures var path := ItemDir(st, book) + "/" + ItemFileName(st, book, fileType);
      forall k :: k in r.st.disk.files && k != Files.Key(path) ==> k in s.disk.files && r.st.disk.files[k] == s.disk.files[k]
    ensures |r.st.replies| <= |s.replies|
  {
    var dir := ItemDir(st, book);
    var name := ItemFileName(st, book, fileType);
    if Files.DirectoryExists(s.disk, dir) && Files.ElementExists(s.disk, dir, name) then Step(Done(()), s)
    else
      var s1 := if Files.DirectoryExists(s.disk, dir) then s else MakeDirectory(s, dir);
      var u := GetDownloadUrl(Pause(s1, DELAY, true), cfg, access, Lookup(book, "productId"), fileType);
      match u.out
      case Done(url) => DownloadItemFile(u.st, url, access, dir, name, st.maxFileSize)
      case Failed(e) => Step(Failed(e), u.st)
      case Stalled => Step(Stalled, u.st)
  }

  // ---------------------------------------------------------------- one product

  /** The product's file types in order; the first that does not resolve ends the product. */
  function TypesStep(s: State, st: Settings, cfg: Config, access: string,
                     book: map<string, string>, types: seq<string>): (r: Step<()>)
    ensures r.st.disk.dirs >= s.disk.dirs && |r.st.replies| <= |s.replies|
    decreases |types|
  {
    if types == [] then Step(Done(()), s)
    else
      var i := ItemStep(s, st, cfg, access, book, types[0]);
      if i.out.Done? then TypesStep(i.st, st, cfg, access, book, types[1..]) else i
  }

  /** A product's outcome with the token pair it leaves for the next one. */
  datatype BookResult = BookResult(out: Outcome<()>, tokens: Tokens, st: State)

  /**
   * One pass of the product loop's body: renew the tokens, read the file
   * types with the new access token, download each type. A renewal that
   * succeeded replaces the pair even when the rest of the product fails.
   */
  function BookStep(s: State, st: Settings, cfg: Config, t: Tokens, book: map<string, string>): (r: BookResult)
    ensures var n := GetNewTokens(s, cfg, t);
      r.tokens == (if n.out.Done? then n.out.value else t)
      && (n.out.Stalled? ==> r.out.Stalled? && r.st == n.st)
      && (n.out.Failed? ==> r.out == Failed(n.out.reason) && r.st == n.st)
    ensures |r.st.replies| <= |s.replies|
  {
    var n := GetNewTokens(s, cfg, t);
    match n.out
    case Stalled => BookResult(Stalled, t, n.st)
    case Failed(e) => BookResult(Failed(e), t, n.st)
    case Done(renewed) =>
      var d := GetBookDetails(n.st, cfg, renewed.access, Lookup(book, "productId"));
      match d.out
      case Done(types) =>
        var r := TypesStep(d.st, st, cfg, renewed.access, book, types);
        BookResult(r.out, renewed, r.st)
      case Failed(e) => BookResult(Failed(e), renewed, d.st)
      case Stalled => BookResult(Stalled, renewed, d.st)
  }

  /**
   * The product loop: a product that rejects is logged and the loop goes
   * on with the next product and the current pair; only a step that never
   * settles stops it. So the loop itself never rejects.
   */
  function BooksStep(s: State, st: Settings, cfg: Config, t: Tokens, books: seq<map<string, string>>): (r: BookResult)
    ensures !r.out.Failed?
    ensures |r.st.replies| <= |s.replies|
    decreases |books|
  {
    if books == [] then BookResult(Done(()), t, s)
    else
      var b := BookStep(s, st, cfg, t, books[0]);
      if b.out.Stalled? then BookResult(Stalled, b.tokens, b.st)
      else BooksStep(b.st, st, cfg, b.tokens, books[1..])
  }

  // ---------------------------------------------------------------- pages

  /** `while (offset < numberOfBooks)`: a missing count compares false. */
  predicate Continues(offset: nat, count: Option<nat>) {
    count.Some? && offset < count.value
  }

  /**
   * The page loop from `offset` on: a pause, the page read with the
   * current access token, its products, then the next page 25 further on
   * while that offset is below the count the page reported.
   */
  function PagesFrom(s: State, st: Settings, cfg: Config, t: Tokens, offset: nat): (r: Step<()>)
    ensures !r.out.Failed?
    decreases |s.replies|
  {
    var c := GetBookshelfContents(Pause(s, DELAY, true), cfg, t.access, offset);
    match c.out
    case Done(shelf) =>
      var b := BooksStep(c.st, st, cfg, t, shelf.books);
      if b.out.Stalled? then Step(Stalled, b.st)
      else if Continues(offset + PAGE_SIZE, shelf.count) then PagesFrom(b.st, st, cfg, b.tokens, offset + PAGE_SIZE)
      else Step(Done(()), b.st)
    case Failed(e) => Step(Failed(e), c.st)
    case Stalled => Step(Stalled, c.st)
  }

  /** `getProducts`: the page loop from offset 0 with the login's token pair. */
  function Products(s: State, st: Settings, cfg: Config, t: Tokens): Step<()> {
    PagesFrom(s, st, cfg, t, 0)
  }

  /** What follows the login: the products, or a type error when the body holds no token pair. */
  function AfterLogin(l: Step<Doc>, st: Settings, cfg: Config): Step<()> {
    match l.out
    case Done(doc) =>
      (match TokensOf(doc)
       case Some(t) => Products(l.st, st, cfg, t)
       case None => Step(Failed("TypeError: Cannot read property 'access' of undefined"), l.st))
    case Failed(e) => Step(Failed(e), l.st)
    case Stalled => Step(Stalled, l.st)
  }

  /** `getBooks` for this adapter. */
  function Run(s: State, st: Settings, acct: Account, cfg: Config): Step<()> {
    var c := CheckIfUserIsLoggedIn(PrepareRequestDefaults(s, st.cookiesDir, acct));
    if c.out.value.isLoggedIn then Step(Failed("TypeError: Cannot read property 'data' of null"), c.st)
    else AfterLogin(LogIn(c.st, acct), st, cfg)
  }

  // ---------------------------------------------------------------- properties

  /** Every run logs in: the login follows the cookie preparation directly. */
  lemma RunAlwaysLogsIn(s: State, st: Settings, acct: Account, cfg: Config)
    ensures Run(s, st, acct, cfg) == AfterLogin(LogIn(PrepareRequestDefaults(s, st.cookiesDir, acct), acct), st, cfg)
  {
  }

  /**
   * The first page is always read, at offset 0, after a pause, with the
   * login's access token.
   */
  lemma FirstPageAtZero(s: State, st: Settings, cfg: Config, t: Tokens)
    requires ReplyAt(s.replies, 0).Answer? && ReplyAt(s.replies, 1).Answer?
    requires ReplyAt(s.replies, 1).response.doc.Decoded?
    ensures var c := GetBookshelfContents(Pause(s, DELAY, true), cfg, t.access, 0);
      c.out.Done?
      && c.st.trace == s.trace + [Wait(DELAY, true), Request(OPTIONS, ShelfUrl(cfg, 0), Plain),
                                  Request(GET, ShelfUrl(cfg, 0), BearerOf(t.access))]
      && Products(s, st, cfg, t) == PagesFrom(s, st, cfg, t, 0)
  {
    var c := GetBookshelfContents(Pause(s, DELAY, true), cfg, t.access, 0);
    assert Pause(s, DELAY, true).trace == s.trace + [Wait(DELAY, true)];
    assert c.out.Done?;
  }

  /**
   * After a page has been read and its products walked, the loop moves on
   * to the offset 25 further on exactly when that offset is below the
   * page's count, carrying the token pair the products left.
   */
  lemma NextPage(s: State, st: Settings, cfg: Config, t: Tokens, offset: nat)
    requires GetBookshelfContents(Pause(s, DELAY, true), cfg, t.access, offset).out.Done?
    ensures var c := GetBookshelfContents(Pause(s, DELAY, true), cfg, t.access, offset);
      var b := BooksStep(c.st, st, cfg, t, c.out.value.books);
      (b.out.Done? && Continues(offset + PAGE_SIZE, c.out.value.count) ==>
        PagesFrom(s, st, cfg, t, offset) == PagesFrom(b.st, st, cfg, b.tokens, offset + PAGE_SIZE))
      && (b.out.Done? && !Continues(offset + PAGE_SIZE, c.out.value.count) ==>
        PagesFrom(s, st, cfg, t, offset) == Step(Done(()), b.st))
  {
  }

  /**
   * The bookshelf pages the loop from `offset` reads, in order: each page's
   * offset and the count it reported. Each is read by
   * `GetBookshelfContents`, whose OPTIONS probe and GET go to
   * `ShelfUrl(cfg, offset)`.
   */
  ghost function ShelfReads(s: State, st: Settings, cfg: Config, t: Tokens, offset: nat): seq<(nat, Option<nat>)>
    decreases |s.replies|
  {
    var c := GetBookshelfContents(Pause(s, DELAY, true), cfg, t.access, offset);
    if !c.out.Done? then []
    else
      var b := BooksStep(c.st, st, cfg, t, c.out.value.books);
      if !b.out.Stalled? && Continues(offset + PAGE_SIZE, c.out.value.count)
      then [(offset, c.out.value.count)] + ShelfReads(b.st, st, cfg, b.tokens, offset + PAGE_SIZE)
      else [(offset, c.out.value.count)]
  }

  /**
   * `r` lists pages read at `offset`, `offset + 25`, ... in turn, each once,
   * going past every page but the last because the next offset was below
   * that page's count and stopping after the last because it was not.
   */
  ghost predicate Walked(r: seq<(nat, Option<nat>)>, offset: nat) {
    |r| >= 1
    && (forall k :: 0 <= k < |r| ==> r[k].0 == offset + PAGE_SIZE * k)
    && (forall k :: 0 <= k < |r| - 1 ==> Continues(r[k].0 + PAGE_SIZE, r[k].1))
    && !Continues(r[|r| - 1].0 + PAGE_SIZE, r[|r| - 1].1)
  }

  /** A page that continues, in front of a walk from the next offset, is a walk. */
  lemma WalkedCons(head: (nat, Option<nat>), rest: seq<(nat, Option<nat>)>, offset: nat)
    requires Walked(rest, offset + PAGE_SIZE)
    requires head.0 == offset && Continues(offset + PAGE_SIZE, head.1)
    ensures Walked([head] + rest, offset)
  {
    var r := [head] + rest;
    forall k | 0 <= k < |r| ensures r[k].0 == offset + PAGE_SIZE * k {
      if k > 0 {
        assert r[k] == rest[k - 1];
      }
    }
    forall k | 0 <= k < |r| - 1 ensures Continues(r[k].0 + PAGE_SIZE, r[k].1) {
      if k > 0 {
        assert r[k] == rest[k - 1];
      }
    }
    assert r[|r| - 1] == rest[|rest| - 1];
  }

  /** One page of a loop that resolves: its shelf read, then the rest of the walk when it goes on. */
  lemma ShelfStep(s: State, st: Settings, cfg: Config, t: Tokens, offset: nat)
    requires PagesFrom(s, st, cfg, t, offset).out.Done?
    ensures var c := GetBookshelfContents(Pause(s, DELAY, true), cfg, t.access, offset);
      c.out.Done? &&
      var b := BooksStep(c.st, st, cfg, t, c.out.value.books);
      var head := (offset, c.out.value.count);
      if Continues(offset + PAGE_SIZE, c.out.value.count) then
        |b.st.replies| < |s.replies| && PagesFrom(b.st, st, cfg, b.tokens, offset + PAGE_SIZE).out.Done?
        && ShelfReads(s, st, cfg, t, offset) == [head] + ShelfReads(b.st, st, cfg, b.tokens, offset + PAGE_SIZE)
      else ShelfReads(s, st, cfg, t, offset) == [head]
  {
  }

  /** The pages read by a loop that resolves form a walk from `offset`. */
  lemma {:induction false} WalkOffsets(s: State, st: Settings, cfg: Config, t: Tokens, offset: nat)
    requires PagesFrom(s, st, cfg, t, offset).out.Done?
    ensures Walked(ShelfReads(s, st, cfg, t, offset), offset)
    decreases |s.replies|
  {
    ShelfStep(s, st, cfg, t, offset);
    var c := GetBookshelfContents(Pause(s, DELAY, true), cfg, t.access, offset);
    var b := BooksStep(c.st, st, cfg, t, c.out.value.books);
    var head := (offset, c.out.value.count);
    if Continues(offset + PAGE_SIZE, c.out.value.count) {
      WalkOffsets(b.st, st, cfg, b.tokens, offset + PAGE_SIZE);
      WalkedCons(head, ShelfReads(b.st, st, cfg, b.tokens, offset + PAGE_SIZE), offset);
    }
  }

  /**
   * With a count `c` that every page reports, the loop reads the offsets
   * 0, 25, ..., 25 * (n - 1) with n = max(1, ceil(c / 25)): one page when
   * the count is 0, and the last page is the one holding the last product.
   */
  lemma ConstantCountPages(s: State, st: Settings, cfg: Config, t: Tokens, c: nat)
    requires PagesFrom(s, st, cfg, t, 0).out.Done?
    requires forall k :: 0 <= k < |ShelfReads(s, st, cfg, t, 0)| ==> ShelfReads(s, st, cfg, t, 0)[k].1 == Some(c)
    ensures var r := ShelfReads(s, st, cfg, t, 0);
      |r| == (if c == 0 then 1 else (c + PAGE_SIZE - 1) / PAGE_SIZE)
      && forall k :: 0 <= k < |r| ==> r[k].0 == PAGE_SIZE * k
  {
    var r := ShelfReads(s, st, cfg, t, 0);
    WalkOffsets(s, st, cfg, t, 0);
    var n := |r|;
    assert PAGE_SIZE * n >= c by {
      assert r[n - 1].0 == PAGE_SIZE * (n - 1);
    }
    if n >= 2 {
      assert PAGE_SIZE * (n - 1) < c by {
        assert r[n - 2].0 == PAGE_SIZE * (n - 2);
        assert Continues(r[n - 2].0 + PAGE_SIZE, r[n - 2].1);
      }
    }
  }

  /**
   * A product that rejects does not stop the loop: the remaining products
   * are walked from the state it left, with the pair it left.
   */
  lemma FailedBookSkipped(s: State, st: Settings, cfg: Config, t: Tokens, books: seq<map<string, string>>)
    requires books != [] && BookStep(s, st, cfg, t, books[0]).out.Failed?
    ensures var b := BookStep(s, st, cfg, t, books[0]);
      BooksStep(s, st, cfg, t, books) == BooksStep(b.st, st, cfg, b.tokens, books[1..])
  {
  }

  /**
   * The pair a product leaves is the one its renewal returned: the refresh
   * of the next product sends the new refresh token with the new access
   * token as bearer.
   */
  lemma RenewedPairIsUsedNext(s: State, st: Settings, cfg: Config, t: Tokens, books: seq<map<string, string>>)
    requires |books| >= 2
    requires GetNewTokens(s, cfg, t).out.Done?
    requires !BookStep(s, st, cfg, t, books[0]).out.Stalled?
    ensures var b := BookStep(s, st, cfg, t, books[0]);
      var renewed := GetNewTokens(s, cfg, t).out.value;
      b.tokens == renewed
      && BooksStep(s, st, cfg, t, books) == BooksStep(b.st, st, cfg, renewed, books[1..])
      && GetNewTokens(b.st, cfg, b.tokens).st.trace == b.st.trace + [Request(POST, cfg.tokensServiceUrl, RefreshOptions(renewed))]
  {
  }

  // ---------------------------------------------------------------- loops

  /** The file-type loop of one product. */
  method ProcessTypes(s: State, st: Settings, cfg: Config, access: string,
                      book: map<string, string>, types: seq<string>) returns (r: Step<()>)
    ensures r == TypesStep(s, st, cfg, access, book, types)
  {
    r := Step(Done(()), s);
    var i := 0;
    while i < |types| && r.out.Done?
      invariant 0 <= i <= |types|
      invariant r.out.Done? ==> TypesStep(s, st, cfg, access, book, types) == TypesStep(r.st, st, cfg, access, book, types[i..])
      invariant !r.out.Done? ==> TypesStep(s, st, cfg, access, book, types) == r
    {
      var next := ItemStep(r.st, st, cfg, access, book, types[i]);
      TypesStepAt(r.st, st, cfg, access, book, types, i);
      r := next;
      i := i + 1;
    }
    if r.out.Done? {
      assert types[i..] == [];
      r := Step(Done(()), r.st);
    }
  }

  /** The file-type loop from type `i` on: that type's item, then the rest when it resolved. */
  lemma TypesStepAt(s: State, st: Settings, cfg: Config, access: string,
                    book: map<string, string>, types: seq<string>, i: nat)
    requires i < |types|
    ensures var next := ItemStep(s, st, cfg, access, book, types[i]);
      TypesStep(s, st, cfg, access, book, types[i..])
      == if next.out.Done? then TypesStep(next.st, st, cfg, access, book, types[i + 1..]) else next
  {
    assert types[i..][0] == types[i] && types[i..][1..] == types[i + 1..];
  }

  /** The body of the product loop, with its file-type loop. */
  method ProcessBook(s: State, st: Settings, cfg: Config, t: Tokens, book: map<string, string>) returns (r: BookResult)
    ensures r == BookStep(s, st, cfg, t, book)
  {
    var n := GetNewTokens(s, cfg, t);
    if !n.out.Done? {
      return BookResult(if n.out.Stalled? then Stalled else Failed(n.out.reason), t, n.st);
    }
    var renewed := n.out.value;
    var d := GetBookDetails(n.st, cfg, renewed.access, Lookup(book, "productId"));
    if !d.out.Done? {
      return BookResult(if d.out.Stalled? then Stalled else Failed(d.out.reason), renewed, d.st);
    }
    var p := ProcessTypes(d.st, st, cfg, renewed.access, book, d.out.value);
    r := BookResult(p.out, renewed, p.st);
  }

  /** The product loop of one page; a rejected product is logged and skipped. */
  method ProcessBooks(s: State, st: Settings, cfg: Config, t: Tokens, books: seq<map<string, string>>) returns (r: BookResult)
    ensures r == BooksStep(s, st, cfg, t, books)
  {
    r := BookResult(Done(()), t, s);
    var i := 0;
    while i < |books|
      invariant 0 <= i <= |books|
      invariant r.out.Done?
      invariant BooksStep(s, st, cfg, t, books) == BooksStep(r.st, st, cfg, r.tokens, books[i..])
    {
      var b := ProcessBook(r.st, st, cfg, r.tokens, books[i]);
      assert BooksStep(r.st, st, cfg, r.tokens, books[i..])
          == if b.out.Stalled? then BookResult(Stalled, b.tokens, b.st)
             else BooksStep(b.st, st, cfg, b.tokens, books[i + 1..]) by {
        assert books[i..][0] == books[i] && books[i..][1..] == books[i + 1..];
      }
      if b.out.Stalled? {
        return BookResult(Stalled, b.tokens, b.st);
      }
      r := BookResult(Done(()), b.tokens, b.st);
      i := i + 1;
    }
    assert books[i..] == [];
    r := BookResult(Done(()), r.tokens, r.st);
  }

  /** `getProducts`: the do-while loop over bookshelf offsets 0, 25, 50, … */
  method GetProducts(s: State, st: Settings, cfg: Config, t: Tokens) returns (r: Step<()>)
    ensures r == Products(s, st, cfg, t)
  {
    var cur, tokens, offset: nat := s, t, 0;
    while true
      invariant PagesFrom(cur, st, cfg, tokens, offset) == Products(s, st, cfg, t)
      decreases |cur.replies|
    {
      var c := GetBookshelfContents(Pause(cur, DELAY, true), cfg, tokens.access, offset);
      if !c.out.Done? {
        return Step(Stalled, c.st);
      }
      var b := ProcessBooks(c.st, st, cfg, tokens, c.out.value.books);
      if b.out.Stalled? {
        return Step(Stalled, b.st);
      }
      if !Continues(offset + PAGE_SIZE, c.out.value.count) {
        return Step(Done(()), b.st);
      }
      cur, tokens, offset := b.st, b.tokens, offset + PAGE_SIZE;
    }
  }
}
