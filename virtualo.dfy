/**
 * The Virtualo adapter: a form login checked against the bookshelf address,
 * and a paged bookshelf whose page addresses are read from the first page's
 * pagination and then fetched one by one from a queue. Every product gets a
 * folder named after its title and authors, and each of its download links
 * a file named after the product and the link's format.
 */
module Virtualo {
  import opened Wrappers
  import opened Text
  import Files
  import opened Env
  import opened Bookstore
  import opened Lists

  const NOT_LOGGED_IN_MARKER := "login"

  // ---------------------------------------------------------------- login

  function LoginForm(acct: Account): map<string, string> {
    map["email" := acct.login, "password" := acct.password]
  }

  /**
   * `logIn`: a jittered three-second pause, the form post and a GET of the
   * bookshelf; logged in exactly when the bookshelf's final address lacks
   * "login". A failure of either request rejects naming the login and the
   * error.
   */
  function LogIn(s: State, acct: Account): (r: Step<string>)
    ensures !r.out.Stalled?
    ensures r.st.disk == s.disk
    ensures var post := ReplyAt(s.replies, 0); var shelf := ReplyAt(s.replies, 1);
      (r.out.Done? <==> post.Answer? && shelf.Answer? && MarkerAbsent(shelf.response.finalUrl, NOT_LOGGED_IN_MARKER))
      && (r.out.Done? ==> r.out.value == shelf.response.body)
      && (post.TransportError? ==> r.out == Failed(Mention("Could not log in as ", acct.login, ". Error: " + post.reason)))
      && (post.Answer? && shelf.TransportError? ==> r.out == Failed(Mention("Could not log in as ", acct.login, ". Error: " + shelf.reason)))
      && (post.Answer? && shelf.Answer? && !r.out.Done? ==> r.out == Failed(Mention("Could not log in as ", acct.login, "")))
  {
    var p := Post(Pause(s, 3 * ONE_SECOND, true), acct.loginServiceUrl, LoginForm(acct));
    match p.reply
    case TransportError(e, _, _) => Step(Failed(Mention("Could not log in as ", acct.login, ". Error: " + e)), p.st)
    case Answer(_) =>
      var g := Get(p.st, acct.bookshelfUrl);
      match g.reply
      case TransportError(e, _, _) => Step(Failed(Mention("Could not log in as ", acct.login, ". Error: " + e)), g.st)
      case Answer(resp) =>
        if MarkerAbsent(resp.finalUrl, NOT_LOGGED_IN_MARKER) then Step(Done(resp.body), g.st)
        else Step(Failed(Mention("Could not log in as ", acct.login, "")), g.st)
  }

  // ---------------------------------------------------------------- scraped data

  /**
   * A download button: its text and its `href` attribute as read (the text
   * "undefined" when the attribute is absent).
   */
  datatype Button = Button(text: string, href: string)

  /** A `li.product` element: its title text, author link texts and download buttons. */
  datatype Product = Product(titleText: string, authorTexts: seq<string>, buttons: seq<Button>)

  /** A bookshelf page: the `href`s of its pagination links and its products. */
  datatype Page = Page(pagingHrefs: seq<string>, products: seq<Product>)

  datatype Download = Download(fileType: string, url: string)

  // ---------------------------------------------------------------- page addresses

  /** What `getPageUrls` returns: the main page address before each pagination link, each address once. */
  function PageUrls(mainPageUrl: string, hrefs: seq<string>): seq<string> {
    Dedup(Map(hrefs, h => mainPageUrl + h))
  }

  /**
   * `getPageUrls`: the pagination addresses, in the order of their first
   * appearance, without repeats, and every one of them.
   */
  method GetPageUrls(mainPageUrl: string, hrefs: seq<string>) returns (r: seq<string>)
    ensures r == PageUrls(mainPageUrl, hrefs)
    ensures Distinct(r)
    ensures forall u :: u in r <==> exists i :: 0 <= i < |hrefs| && u == mainPageUrl + hrefs[i]
  {
    r := CollectDistinct(hrefs, h => mainPageUrl + h);
    forall u
      ensures u in r <==> exists i :: 0 <= i < |hrefs| && u == mainPageUrl + hrefs[i]
    {
      var m := Map(hrefs, h => mainPageUrl + h);
      if u in r {
        var i :| 0 <= i < |m| && m[i] == u;
        assert u == mainPageUrl + hrefs[i];
      }
      if exists i :: 0 <= i < |hrefs| && u == mainPageUrl + hrefs[i] {
        var i :| 0 <= i < |hrefs| && u == mainPageUrl + hrefs[i];
        assert m[i] == u;
      }
    }
  }

  // ---------------------------------------------------------------- authors and titles

  /** What `getAuthors` returns: each trimmed name followed by ", ", with the final ", " removed. */
  function Authors(names: seq<string>): string {
    DropSuffix(Terminated(Map(names, Trim), ", "), ", ")
  }

  /** `getAuthors`: the accumulating loop. Its result is the trimmed names joined with ", ". */
  method GetAuthors(names: seq<string>) returns (r: string)
    ensures r == Authors(names)
    ensures r == Join(Map(names, Trim), ", ")
  {
    var acc := "";
    var i := 0;
    while i < |names|
      invariant 0 <= i <= |names|
      invariant acc == Terminated(Map(names[..i], Trim), ", ")
    {
      var author := Trim(names[i]);
      AuthorsSnoc(names, i);
      acc := acc + author + ", ";
      i := i + 1;
    }
    assert names[..i] == names;
    r := DropSuffix(acc, ", ");
    TerminatedDropped(Map(names, Trim), ", ");
  }

  /** One more name in the loop appends its trimmed text and a separator. */
  lemma AuthorsSnoc(names: seq<string>, i: nat)
    requires i < |names|
    ensures Terminated(Map(names[..i + 1], Trim), ", ") == Terminated(Map(names[..i], Trim), ", ") + Trim(names[i]) + ", "
  {
    MapSnoc(names, i, Trim);
    TerminatedSnoc(Map(names[..i], Trim), Trim(names[i]), ", ");
  }

  /** `getDownloadLinks`: the trimmed button text as the format, the address under the main page. */
  function DownloadLinks(mainPageUrl: string, buttons: seq<Button>): (r: seq<Download>)
    ensures |r| == |buttons|
    ensures forall i :: 0 <= i < |r| ==>
      r[i].fileType == Trim(buttons[i].text) && r[i].url == mainPageUrl + "/" + buttons[i].href
  {
    Map(buttons, (b: Button) => Download(Trim(b.text), mainPageUrl + "/" + b.href))
  }

  /** The product's folder and file stem: the path-safe title, then " - authors" when there are authors. */
  function ProductTitle(st: Settings, title: string, authors: string): (r: string)
    ensures authors == "" <==> r == st.pathName(title)
    ensures authors != "" ==> r == st.pathName(title) + " - " + authors
  {
    var t := st.pathName(title);
    if authors != "" then
      assert |t + " - " + authors| > |t|;
      t + " - " + authors
    else t
  }

  // ---------------------------------------------------------------- downloads

  /** The file name of one download: the product title and the format, joined by a dot. */
  function FileName(productTitle: string, d: Download): string {
    productTitle + "." + d.fileType
  }

  /**
   * One download of `downloadProduct`'s loop: a present, non-empty file is
   * skipped; otherwise `downloadFile` runs directly, with no size probe, on
   * the encoded address.
   */
  function DownloadStep(s: State, dir: string, productTitle: string, d: Download): (r: Step<()>)
    ensures !r.out.Stalled?
    ensures Files.ElementExists(s.disk, dir, FileName(productTitle, d)) ==> r == Step(Done(()), s)
    ensures !Files.ElementExists(s.disk, dir, FileName(productTitle, d)) ==>
      r == DownloadFile(s, d.url, dir, FileName(productTitle, d), true)
    ensures PageGets(r.st.trace) == PageGets(s.trace)
  {
    var name := FileName(productTitle, d);
    if Files.ElementExists(s.disk, dir, name) then Step(Done(()), s)
    else
      var r := DownloadFile(s, d.url, dir, name, true);
      var req := Request(GET, d.url, Plain.(encoded := true));
      PageGetsOther(s.trace, req);
      if r.out.Done? then
        PageGetsOther(s.trace + [req], Write(dir + "/" + name, |ReplyAt(s.replies, 0).response.body|));
        assert s.trace + [req] + [Write(dir + "/" + name, |ReplyAt(s.replies, 0).response.body|)] == r.st.trace;
        r
      else r
  }

  /** The downloads in order; with no `try` around them, the first that rejects ends the product. */
  function DownloadsStep(s: State, dir: string, productTitle: string, ds: seq<Download>): (r: Step<()>)
    ensures !r.out.Stalled?
    ensures PageGets(r.st.trace) == PageGets(s.trace)
    decreases |ds|
  {
    if ds == [] then Step(Done(()), s)
    else
      var r := DownloadStep(s, dir, productTitle, ds[0]);
      if r.out.Done? then DownloadsStep(r.st, dir, productTitle, ds[1..]) else r
  }

  function ProductDir(st: Settings, p: Product): string {
    st.booksDir + "/" + ProductTitle(st, Trim(p.titleText), Authors(p.authorTexts))
  }

  /** `downloadProduct`: the folder is ensured, then every download tried. */
  function ProductStep(s: State, st: Settings, mainPageUrl: string, p: Product): (r: Step<()>)
    ensures !r.out.Stalled?
    ensures Files.DirectoryExists(r.st.disk, ProductDir(st, p))
    ensures PageGets(r.st.trace) == PageGets(s.trace)
  {
    var title := ProductTitle(st, Trim(p.titleText), Authors(p.authorTexts));
    var dir := st.booksDir + "/" + title;
    var s1 := EnsureDirectory(s, dir);
    assert PageGets(s1.trace) == PageGets(s.trace) by {
      if s1 != s { PageGetsOther(s.trace, MakeDir(dir)); }
    }
    var r := DownloadsStep(s1, dir, title, DownloadLinks(mainPageUrl, p.buttons));
    DownloadsKeepDirs(s1, dir, title, DownloadLinks(mainPageUrl, p.buttons));
    r
  }

  /** Downloads only write files: the folders present before are still there. */
  lemma {:induction false} DownloadsKeepDirs(s: State, dir: string, productTitle: string, ds: seq<Download>)
    ensures DownloadsStep(s, dir, productTitle, ds).st.disk.dirs == s.disk.dirs
    ensures forall k :: k in s.disk.files ==> k in DownloadsStep(s, dir, productTitle, ds).st.disk.files
    decreases |ds|
  {
    if ds != [] {
      var r := DownloadStep(s, dir, productTitle, ds[0]);
      assert r.st.disk.dirs == s.disk.dirs && s.disk.files.Keys <= r.st.disk.files.Keys;
      if r.out.Done? {
        DownloadsKeepDirs(r.st, dir, productTitle, ds[1..]);
      }
    }
  }

  /** `getProductsFromPage`: the products in order; the first that rejects ends the page. */
  function PageStep(s: State, st: Settings, mainPageUrl: string, ps: seq<Product>): (r: Step<()>)
    ensures !r.out.Stalled?
    ensures PageGets(r.st.trace) == PageGets(s.trace)
    decreases |ps|
  {
    if ps == [] then Step(Done(()), s)
    else
      var r := ProductStep(s, st, mainPageUrl, ps[0]);
      if r.out.Done? then PageStep(r.st, st, mainPageUrl, ps[1..]) else r
  }

  // ---------------------------------------------------------------- the page queue

  /**
   * `getProducts`' do-while from a page body and the queue still to visit:
   * the page's products, then, while the queue is not empty, a jittered
   * one-second pause and a GET of its head, which is removed.
   */
  function PagesFrom(s: State, st: Settings, mainPageUrl: string, scrape: string -> Page,
                     body: string, queue: seq<string>): (r: Step<()>)
    ensures !r.out.Stalled?
    decreases |queue|
  {
    var r := PageStep(s, st, mainPageUrl, scrape(body).products);
    if !r.out.Done? then r
    else if queue == [] then Step(Done(()), r.st)
    else
      var g := GetPageBody(r.st, queue[0], ONE_SECOND, false);
      match g.out
      case Done(resp) => PagesFrom(g.st, st, mainPageUrl, scrape, resp.body, queue[1..])
      case Failed(e) => Step(Failed(e), g.st)
      case Stalled => Step(Stalled, g.st)
  }

  /** The bookshelf walk: the queue is every distinct pagination address of the first page. */
  function Products(s: State, st: Settings, mainPageUrl: string, scrape: string -> Page, body: string): Step<()> {
    PagesFrom(s, st, mainPageUrl, scrape, body, PageUrls(mainPageUrl, scrape(body).pagingHrefs))
  }

  function Run(s: State, st: Settings, acct: Account, scrape: string -> Page): Step<()> {
    GetBooks(s, st.cookiesDir, acct,
             s' => CheckIfUserIsLoggedIn(s', acct, NOT_LOGGED_IN_MARKER),
             s' => LogIn(s', acct),
             (s', body) => Products(s', st, acct.mainPageUrl, scrape, body))
  }

  // ---------------------------------------------------------------- page requests

  /** Whether an event is a page fetch: a GET with the plain options (downloads encode their address). */
  predicate IsPageGet(e: Event) {
    e.Request? && e.verb == GET && e.opts == Plain
  }

  /** The addresses of the page fetches of a trace, in order. */
  function PageGets(t: seq<Event>): seq<string> {
    if t == [] then []
    else PageGets(t[..|t| - 1]) + (if IsPageGet(t[|t| - 1]) then [t[|t| - 1].url] else [])
  }

  lemma PageGetsOther(t: seq<Event>, e: Event)
    requires !IsPageGet(e)
    ensures PageGets(t + [e]) == PageGets(t)
  {
    assert (t + [e])[..|t|] == t;
  }

  /**
   * The walk fetches each queued address once, in queue order, and nothing
   * else as a page: when it resolves, the page fetches it added are exactly
   * the queue; when it rejects, they are a prefix of it.
   */
  lemma {:induction false} PagesInQueueOrder(s: State, st: Settings, mainPageUrl: string, scrape: string -> Page,
                                             body: string, queue: seq<string>)
    ensures var r := PagesFrom(s, st, mainPageUrl, scrape, body, queue);
      exists k :: (0 <= k <= |queue| && PageGets(r.st.trace) == PageGets(s.trace) + queue[..k]
                   && (r.out.Done? ==> k == |queue|))
    decreases |queue|
  {
    var p := PageStep(s, st, mainPageUrl, scrape(body).products);
    var whole := PagesFrom(s, st, mainPageUrl, scrape, body, queue);
    if !p.out.Done? || queue == [] {
      assert PageGets(whole.st.trace) == PageGets(s.trace) + queue[..0];
      assert whole.out.Done? ==> 0 == |queue|;
    } else {
      var g := GetPageBody(p.st, queue[0], ONE_SECOND, false);
      OnePageGet(p.st, queue[0]);
      if g.out.Done? {
        var rest := PagesFrom(g.st, st, mainPageUrl, scrape, g.out.value.body, queue[1..]);
        assert whole == rest;
        PagesInQueueOrder(g.st, st, mainPageUrl, scrape, g.out.value.body, queue[1..]);
        var k :| 0 <= k <= |queue[1..]| && PageGets(rest.st.trace) == PageGets(g.st.trace) + queue[1..][..k]
          && (rest.out.Done? ==> k == |queue[1..]|);
        QueuePrefix(PageGets(s.trace), queue, k);
        assert PageGets(whole.st.trace) == PageGets(s.trace) + queue[..k + 1];
        assert whole.out.Done? ==> k + 1 == |queue|;
      } else {
        assert whole == Step(Failed(g.out.reason), g.st);
        assert queue[..1] == [queue[0]];
        assert PageGets(whole.st.trace) == PageGets(s.trace) + queue[..1];
        assert !whole.out.Done?;
      }
    }
  }

  /** Fetching one page adds exactly its address to the page fetches. */
  lemma OnePageGet(t: State, url: string)
    ensures PageGets(GetPageBody(t, url, ONE_SECOND, false).st.trace) == PageGets(t.trace) + [url]
  {
    var g := GetPageBody(t, url, ONE_SECOND, false);
    var waited := t.trace + [Wait(ONE_SECOND, true)];
    PageGetsOther(t.trace, Wait(ONE_SECOND, true));
    assert g.st.trace == waited + [Request(GET, url, Plain)];
    assert (waited + [Request(GET, url, Plain)])[..|waited|] == waited;
  }

  /** The head of the queue, then `k` more of it, is the queue's first `k + 1`. */
  lemma QueuePrefix(before: seq<string>, queue: seq<string>, k: nat)
    requires k < |queue|
    ensures before + [queue[0]] + queue[1..][..k] == before + queue[..k + 1]
  {
    assert [queue[0]] + queue[1..][..k] == queue[..k + 1];
  }

  /** With every reply answered, the run through the pages requests every queued address. */
  lemma AllPagesFetched(s: State, st: Settings, mainPageUrl: string, scrape: string -> Page,
                        body: string, queue: seq<string>)
    requires PagesFrom(s, st, mainPageUrl, scrape, body, queue).out.Done?
    ensures PageGets(PagesFrom(s, st, mainPageUrl, scrape, body, queue).st.trace) == PageGets(s.trace) + queue
  {
    PagesInQueueOrder(s, st, mainPageUrl, scrape, body, queue);
  }

  // ---------------------------------------------------------------- loops

  /** `downloadProduct`. */
  method DownloadProduct(s: State, st: Settings, mainPageUrl: string, p: Product) returns (r: Step<()>)
    ensures r == ProductStep(s, st, mainPageUrl, p)
  {
    var authors := GetAuthors(p.authorTexts);
    var title := ProductTitle(st, Trim(p.titleText), authors);
    var dir := st.booksDir + "/" + title;
    var ds := DownloadLinks(mainPageUrl, p.buttons);
    r := Step(Done(()), EnsureDirectory(s, dir));
    ghost var s1 := r.st;
    var i := 0;
    while i < |ds| && r.out.Done?
      invariant 0 <= i <= |ds|
      invariant r.out.Done? ==> DownloadsStep(s1, dir, title, ds) == DownloadsStep(r.st, dir, title, ds[i..])
      invariant !r.out.Done? ==> DownloadsStep(s1, dir, title, ds) == r
    {
      var next := DownloadStep(r.st, dir, title, ds[i]);
      assert DownloadsStep(r.st, dir, title, ds[i..])
          == if next.out.Done? then DownloadsStep(next.st, dir, title, ds[i + 1..]) else next by {
        assert ds[i..][0] == ds[i] && ds[i..][1..] == ds[i + 1..];
      }
      r := next;
      i := i + 1;
    }
    if r.out.Done? {
      assert ds[i..] == [];
      r := Step(Done(()), r.st);
    }
  }

  /** `getProductsFromPage`. */
  method GetProductsFromPage(s: State, st: Settings, mainPageUrl: string, ps: seq<Product>) returns (r: Step<()>)
    ensures r == PageStep(s, st, mainPageUrl, ps)
  {
    r := Step(Done(()), s);
    var i := 0;
    while i < |ps| && r.out.Done?
      invariant 0 <= i <= |ps|
      invariant r.out.Done? ==> PageStep(s, st, mainPageUrl, ps) == PageStep(r.st, st, mainPageUrl, ps[i..])
      invariant !r.out.Done? ==> PageStep(s, st, mainPageUrl, ps) == r
    {
      var next := DownloadProduct(r.st, st, mainPageUrl, ps[i]);
      assert PageStep(r.st, st, mainPageUrl, ps[i..])
          == if next.out.Done? then PageStep(next.st, st, mainPageUrl, ps[i + 1..]) else next by {
        assert ps[i..][0] == ps[i] && ps[i..][1..] == ps[i + 1..];
      }
      r := next;
      i := i + 1;
    }
    if r.out.Done? {
      assert ps[i..] == [];
      r := Step(Done(()), r.st);
    }
  }

  /** `getProducts`: the do-while that drains the page queue with `shift()`. */
  method GetProducts(s: State, st: Settings, mainPageUrl: string, scrape: string -> Page, body: string)
    returns (r: Step<()>)
    ensures r == Products(s, st, mainPageUrl, scrape, body)
  {
    var queue := GetPageUrls(mainPageUrl, scrape(body).pagingHrefs);
    var cur, pageBody := s, body;
    while true
      invariant Products(s, st, mainPageUrl, scrape, body) == PagesFrom(cur, st, mainPageUrl, scrape, pageBody, queue)
      decreases |queue|
    {
      var p := GetProductsFromPage(cur, st, mainPageUrl, scrape(pageBody).products);
      if !p.out.Done? {
        return p;
      }
      if queue == [] {
        return Step(Done(()), p.st);
      }
      var next := queue[0];
      queue := queue[1..];
      var g := GetPageBody(p.st, next, ONE_SECOND, false);
      if g.out.Failed? {
        return Step(Failed(g.out.reason), g.st);
      }
      cur, pageBody := g.st, g.out.value.body;
    }
  }
}
