/**
 * The Publio adapter: a bearer-token bookshelf service read page by page,
 * a JSON login, and the (never reached) package preparation and download
 * of one publication.
 */
module Publio {
  import opened Wrappers
  import opened Text
  import Files
  import opened Env
  import opened Bookstore
  import opened Lists

  /** The store entry's addresses this adapter reads besides the common ones. */
  datatype Config = Config(bookshelfServiceUrl: string, itemsPerPage: nat, productDownloadTypesServiceUrl: string)

  // ---------------------------------------------------------------- logged-in check

  /**
   * `checkIfUserIsAlreadyLoggedIn`: the bookshelf service is asked with the
   * token. An answer means logged in, with its body; a rejection with status
   * 401 means logged out, with an empty body; any other status rejects
   * naming the login; a failure with no response at all makes the rejection
   * handler itself throw, so the check never settles.
   */
  function CheckIfUserIsAlreadyLoggedIn(s: State, acct: Account, cfg: Config, accessToken: string): (r: Step<ShelfCheck>)
    ensures r.st == Send(s, GET, cfg.bookshelfServiceUrl, BearerOf(accessToken)).st
    ensures var a := ReplyAt(s.replies, 0);
      (a.Answer? <==> r.out.Done? && r.out.value.isLoggedIn)
      && (a.Answer? ==> r.out.value.body == a.response.body)
      && (a.TransportError? && a.status == 401 <==> r.out == Done(ShelfCheck(false, "")))
      && (a.TransportError? && a.status == 0 <==> r.out.Stalled?)
    ensures r.out.Failed? ==> Contains(r.out.reason, acct.login)
  {
    var a := Send(s, GET, cfg.bookshelfServiceUrl, BearerOf(accessToken));
    match a.reply
    case Answer(resp) => Step(Done(ShelfCheck(true, resp.body)), a.st)
    case TransportError(e, _, status) =>
      if status == 401 then Step(Done(ShelfCheck(false, "")), a.st)
      else if status == 0 then Step(Stalled, a.st)
      else Step(Failed(Mention("Could not check if ", acct.login, " is logged in. Error: " + e)), a.st)
  }

  // ---------------------------------------------------------------- login

  function LoginJson(acct: Account): map<string, string> {
    map["login" := acct.login, "password" := acct.password]
  }

  /**
   * `logIn` with this adapter's `sendLoginForm`: visit the login form, post
   * the credentials as JSON, and on a 200 answer parse the body. Another
   * status rejects naming it; a failed post, or a parse that throws, rejects
   * naming the login. `reparse` selects what the parser is given: as the
   * adapter is written, the `json` option has the client decode the answer
   * already, so `JSON.parse` receives an object, reads "[object Object]"
   * and throws whatever was answered; as intended, the body is parsed once
   * and a JSON body resolves with its fields.
   */
  function LogIn(s: State, acct: Account, reparse: bool): (r: Step<map<string, string>>)
    ensures !r.out.Stalled?
    ensures r.st.disk == s.disk
    ensures ReplyAt(s.replies, 0).TransportError? ==> r.out == Failed(ReplyAt(s.replies, 0).reason)
    ensures ReplyAt(s.replies, 0).Answer? ==>
      r.st.trace == s.trace + [Wait(0, true), Request(GET, acct.loginFormUrl, Plain), Wait(3 * ONE_SECOND, false),
                               Request(POST, acct.loginServiceUrl, FormOf(LoginJson(acct)))]
    ensures r.out.Done? <==> (!reparse && ReplyAt(s.replies, 0).Answer? && ReplyAt(s.replies, 1).Answer?
      && ReplyAt(s.replies, 1).response.status == 200 && ReplyAt(s.replies, 1).response.doc.Decoded?)
    ensures r.out.Done? ==> r.out.value == ReplyAt(s.replies, 1).response.doc.fields
    ensures ReplyAt(s.replies, 0).Answer? && ReplyAt(s.replies, 1).TransportError? ==>
      r.out.Failed? && Contains(r.out.reason, acct.login)
    ensures var a := ReplyAt(s.replies, 1);
      ReplyAt(s.replies, 0).Answer? && a.Answer? && a.response.status != 200 ==>
        r.out == Failed("Got response code " + NatToString(a.response.status) + " while logging in")
    ensures var a := ReplyAt(s.replies, 1);
      ReplyAt(s.replies, 0).Answer? && a.Answer? && a.response.status == 200 && (reparse || !a.response.doc.Decoded?) ==>
        r.out == Failed(Mention("Could not log in as ", acct.login, ". Error: " + JSON_ERROR))
  {
    var v := VisitLoginForm(s, acct.loginFormUrl);
    ReplyAtDrop(s.replies, 1, 0);
    if !v.out.Done? then Step(Failed(v.out.reason), v.st)
    else
      var p := Send(v.st, POST, acct.loginServiceUrl, FormOf(LoginJson(acct)));
      match p.reply
      case TransportError(e, _, _) => Step(Failed(Mention("Could not log in as ", acct.login, ". Error: " + e)), p.st)
      case Answer(resp) =>
        if resp.status != 200 then
          Step(Failed("Got response code " + NatToString(resp.status) + " while logging in"), p.st)
        else if !reparse && resp.doc.Decoded? then Step(Done(resp.doc.fields), p.st)
        else Step(Failed(Mention("Could not log in as ", acct.login, ". Error: " + JSON_ERROR)), p.st)
  }

  /**
   * As written, the login never resolves: a 200 answer, whatever its body,
   * rejects naming the login, after exactly the form visit and the post.
   */
  lemma LoginAlwaysRejects(s: State, acct: Account)
    requires ReplyAt(s.replies, 0).Answer? && ReplyAt(s.replies, 1).Answer?
    requires ReplyAt(s.replies, 1).response.status == 200
    ensures var r := LogIn(s, acct, true);
      r.out.Failed? && Contains(r.out.reason, acct.login)
      && r.st.replies == Drop(s.replies, 2) && r.st.disk == s.disk
      && r.st.trace == s.trace + [Wait(0, true), Request(GET, acct.loginFormUrl, Plain), Wait(3 * ONE_SECOND, false),
                                  Request(POST, acct.loginServiceUrl, FormOf(LoginJson(acct)))]
  {
    var v := VisitLoginForm(s, acct.loginFormUrl);
    ReplyAtDrop(s.replies, 1, 0);
    DropDrop(s.replies, 1);
    assert v.st.replies == Drop(s.replies, 1);
  }

  // ---------------------------------------------------------------- bookshelf pages

  /** The service address of page `page`: the first `_page_` replaced by the number. */
  function PageUrl(cfg: Config, page: nat): string {
    ReplaceFirst(cfg.bookshelfServiceUrl, "_page_", NatToString(page))
  }

  /**
   * `pageBody.totalResults` as the comparison reads it: a decimal number,
   * or nothing a number is greater than (a missing field compares false).
   */
  function TotalResults(doc: Doc): Option<nat> {
    if doc.Decoded? && "totalResults" in doc.fields && IsDigits(doc.fields["totalResults"])
    then Some(DigitsValue(doc.fields["totalResults"])) else None
  }

  /** The last-page test: `itemsPerPage * pageNbr > totalResults`. */
  predicate IsLastPage(itemsPerPage: nat, page: nat, total: Option<nat>) {
    total.Some? && itemsPerPage * page > total.value
  }

  /** The page request: a jittered three-second pause, then a GET with the bearer token. */
  function FetchPage(s: State, cfg: Config, token: string, page: nat): Answered {
    Send(Pause(s, 3 * ONE_SECOND, true), GET, PageUrl(cfg, page), BearerOf(token))
  }

  /**
   * `downloadPublicationsFromPage`: fetch the page and resolve whether it
   * is the last one. The items are walked, but a single item's download
   * has an empty body and the other kinds are skipped, so nothing else
   * happens. `whole` selects what the JSON parser is given: the whole
   * response object, as the adapter is written (the request asks for the
   * full response), or the response's body, as intended. A response object
   * reads as "[object Object]", which is not JSON.
   */
  function ReadPage(s: State, cfg: Config, token: string, page: nat, whole: bool): (r: Step<bool>)
    ensures !r.out.Stalled?
    ensures r.st == FetchPage(s, cfg, token, page).st
    ensures r.out.Done? <==> !whole && ReplyAt(s.replies, 0).Answer? && ReplyAt(s.replies, 0).response.doc.Decoded?
    ensures r.out.Done? ==>
      (r.out.value <==> IsLastPage(cfg.itemsPerPage, page, TotalResults(ReplyAt(s.replies, 0).response.doc)))
    ensures r.out.Done? ==> |r.st.replies| < |s.replies|
  {
    var a := FetchPage(s, cfg, token, page);
    match a.reply
    case TransportError(e, _, _) => Step(Failed(e), a.st)
    case Answer(resp) =>
      if whole || !resp.doc.Decoded? then Step(Failed(JSON_ERROR), a.st)
      else Step(Done(IsLastPage(cfg.itemsPerPage, page, TotalResults(resp.doc))), a.st)
  }

  /** The do-while of `getProducts` from page `page` on: stop after the first last page or the first failure. */
  function Pages(s: State, cfg: Config, token: string, page: nat, whole: bool): Step<()>
    decreases |s.replies|
  {
    var p := ReadPage(s, cfg, token, page, whole);
    if !p.out.Done? then Step(Failed(p.out.reason), p.st)
    else if p.out.value then Step(Done(()), p.st)
    else Pages(p.st, cfg, token, page + 1, whole)
  }

  /** `getProducts` as written: page 1 on, with the whole response given to the parser. */
  function ProductsAsWritten(s: State, cfg: Config, token: string): Step<()> {
    Pages(s, cfg, token, 1, true)
  }

  /** `getProducts` as intended: page 1 on, with each page's body parsed. */
  function Products(s: State, cfg: Config, token: string): Step<()> {
    Pages(s, cfg, token, 1, false)
  }

  /**
   * As written, `getProducts` rejects right after its first page request,
   * whatever the service answers: exactly one request, nothing written.
   */
  lemma FirstPageAlwaysRejects(s: State, cfg: Config, token: string)
    ensures var r := ProductsAsWritten(s, cfg, token);
      r.out.Failed? && r.st == FetchPage(s, cfg, token, 1).st
      && Requests(r.st.trace) == Requests(s.trace) + 1
  {
    var a := FetchPage(s, cfg, token, 1);
    var p := Pause(s, 3 * ONE_SECOND, true);
    RequestsAppend(s.trace, [Wait(3 * ONE_SECOND, true)]);
    RequestsAppend(p.trace, [Request(GET, PageUrl(cfg, 1), BearerOf(token))]);
    assert [Wait(3 * ONE_SECOND, true)][..0] == [];
    assert [Request(GET, PageUrl(cfg, 1), BearerOf(token))][..0] == [];
  }

  /** The events of `n` page requests from page `from` on. */
  function PageEvents(cfg: Config, token: string, from: nat, n: nat): seq<Event>
    decreases n
  {
    if n == 0 then []
    else [Wait(3 * ONE_SECOND, true), Request(GET, PageUrl(cfg, from), BearerOf(token))] + PageEvents(cfg, token, from + 1, n - 1)
  }

  /** The page whose test first passes for a constant total. */
  function LastPage(total: nat, itemsPerPage: nat): nat
    requires itemsPerPage > 0
  {
    total / itemsPerPage + 1
  }

  /** The test passes exactly from `LastPage` on. */
  lemma LastPageTest(itemsPerPage: nat, page: nat, total: nat)
    requires itemsPerPage > 0
    ensures itemsPerPage * page > total <==> page >= LastPage(total, itemsPerPage)
  {
    var q := total / itemsPerPage;
    var m := total % itemsPerPage;
    assert total == itemsPerPage * q + m;
    if page >= q + 1 {
      assert itemsPerPage * page >= itemsPerPage * (q + 1);
    } else {
      assert itemsPerPage * page <= itemsPerPage * q;
    }
  }

  /** A page reply that decodes and reports `total` results. */
  predicate PageReply(r: Reply, total: nat) {
    r.Answer? && r.response.doc.Decoded? && TotalResults(r.response.doc) == Some(total)
  }

  /**
   * With a constant total, pages `page`, `page + 1`, ... up to the last page
   * are requested, in order and each once, and the walk then resolves.
   */
  lemma {:induction false} PagesRun(s: State, cfg: Config, token: string, page: nat, total: nat)
    requires cfg.itemsPerPage > 0 && 1 <= page <= LastPage(total, cfg.itemsPerPage)
    requires forall i :: 0 <= i <= LastPage(total, cfg.itemsPerPage) - page ==> PageReply(ReplyAt(s.replies, i), total)
    ensures var n := LastPage(total, cfg.itemsPerPage) - page + 1;
      var r := Pages(s, cfg, token, page, false);
      r.out == Done(()) && r.st.disk == s.disk && r.st.replies == Drop(s.replies, n)
      && r.st.trace == s.trace + PageEvents(cfg, token, page, n)
    decreases LastPage(total, cfg.itemsPerPage) - page
  {
    var last := LastPage(total, cfg.itemsPerPage);
    var n := last - page + 1;
    var next := s.(replies := Drop(s.replies, 1), trace := s.trace + PageEvents(cfg, token, page, 1));
    PageStep(s, cfg, token, page, total);
    if page < last {
      forall i | 0 <= i <= last - (page + 1) ensures PageReply(ReplyAt(next.replies, i), total) {
        ReplyAtDrop(s.replies, 1, i);
      }
      PagesRun(next, cfg, token, page + 1, total);
      PagesRunStep(s, next, cfg, token, page, n);
    }
  }

  /** The walk from `page` is one page's round, then the walk from the next page. */
  lemma PagesRunStep(s: State, next: State, cfg: Config, token: string, page: nat, n: nat)
    requires n >= 2
    requires next == s.(replies := Drop(s.replies, 1), trace := s.trace + PageEvents(cfg, token, page, 1))
    requires Pages(s, cfg, token, page, false) == Pages(next, cfg, token, page + 1, false)
    requires var r := Pages(next, cfg, token, page + 1, false);
      r.out == Done(()) && r.st.disk == next.disk && r.st.replies == Drop(next.replies, n - 1)
      && r.st.trace == next.trace + PageEvents(cfg, token, page + 1, n - 1)
    ensures var r := Pages(s, cfg, token, page, false);
      r.out == Done(()) && r.st.disk == s.disk && r.st.replies == Drop(s.replies, n)
      && r.st.trace == s.trace + PageEvents(cfg, token, page, n)
  {
    var r := Pages(next, cfg, token, page + 1, false);
    DropDrop(s.replies, n - 1);
    calc {
      r.st.trace;
      next.trace + PageEvents(cfg, token, page + 1, n - 1);
      s.trace + (PageEvents(cfg, token, page, 1) + PageEvents(cfg, token, page + 1, n - 1));
      { PageEventsSplit(cfg, token, page, n); }
      s.trace + PageEvents(cfg, token, page, n);
    }
  }

  /** One page of a constant total: it is the last exactly from `LastPage` on. */
  lemma PageStep(s: State, cfg: Config, token: string, page: nat, total: nat)
    requires cfg.itemsPerPage > 0
    requires PageReply(ReplyAt(s.replies, 0), total)
    ensures var next := s.(replies := Drop(s.replies, 1), trace := s.trace + PageEvents(cfg, token, page, 1));
      Pages(s, cfg, token, page, false) ==
        if page >= LastPage(total, cfg.itemsPerPage) then Step(Done(()), next)
        else Pages(next, cfg, token, page + 1, false)
  {
    LastPageTest(cfg.itemsPerPage, page, total);
    assert PageEvents(cfg, token, page, 1) == [Wait(3 * ONE_SECOND, true), Request(GET, PageUrl(cfg, page), BearerOf(token))];
    var p := ReadPage(s, cfg, token, page, false);
    assert p.st == s.(replies := Drop(s.replies, 1), trace := s.trace + PageEvents(cfg, token, page, 1));
    assert p.out == Done(page >= LastPage(total, cfg.itemsPerPage));
  }

  lemma PageEventsSplit(cfg: Config, token: string, page: nat, n: nat)
    requires n >= 1
    ensures PageEvents(cfg, token, page, n) == PageEvents(cfg, token, page, 1) + PageEvents(cfg, token, page + 1, n - 1)
  {
    assert PageEvents(cfg, token, page, 1) == [Wait(3 * ONE_SECOND, true), Request(GET, PageUrl(cfg, page), BearerOf(token))];
  }

  /** Walking the bookshelf pages writes nothing. */
  lemma {:induction false} PagesWriteNothing(s: State, cfg: Config, token: string, page: nat, whole: bool)
    ensures Pages(s, cfg, token, page, whole).st.disk == s.disk
    decreases |s.replies|
  {
    var p := ReadPage(s, cfg, token, page, whole);
    if p.out.Done? && !p.out.value {
      PagesWriteNothing(p.st, cfg, token, page + 1, whole);
    }
  }

  /** `downloadPublicationsFromPage` as intended, as a step of the loop. */
  method DownloadPublicationsFromPage(s: State, cfg: Config, token: string, page: nat) returns (r: Step<bool>)
    ensures r == ReadPage(s, cfg, token, page, false)
  {
    var a := FetchPage(s, cfg, token, page);
    if a.reply.TransportError? {
      return Step(Failed(a.reply.reason), a.st);
    }
    var doc := a.reply.response.doc;
    if !doc.Decoded? {
      return Step(Failed(JSON_ERROR), a.st);
    }
    var isLastPage := TotalResults(doc).Some? && cfg.itemsPerPage * page > TotalResults(doc).value;
    r := Step(Done(isLastPage), a.st);
  }

  /** `getProducts` as intended: the page counter runs from 1 until a page is the last one. */
  method GetProducts(s0: State, cfg: Config, token: string) returns (r: Step<()>)
    ensures r == Products(s0, cfg, token)
  {
    var s := s0;
    var pageNbr: nat := 1;
    while true
      invariant Pages(s0, cfg, token, 1, false) == Pages(s, cfg, token, pageNbr, false)
      decreases |s.replies|
    {
      var p := DownloadPublicationsFromPage(s, cfg, token, pageNbr);
      pageNbr := pageNbr + 1;
      if !p.out.Done? {
        return Step(Failed(p.out.reason), p.st);
      }
      s := p.st;
      if p.out.value {
        return Step(Done(()), s);
      }
    }
  }

  /**
   * The whole run: the check with an empty token, the login only when it
   * reports logged out, then the page walk. A check body is text, whose
   * `authorizationToken` reads `undefined`; a login reply gives its own.
   * `asWritten` selects the login and page parsing as the adapter is
   * written (see `LogIn` and `ReadPage`) or as intended.
   */
  function Run(s: State, st: Settings, acct: Account, cfg: Config, asWritten: bool): Step<()> {
    var c := CheckIfUserIsAlreadyLoggedIn(PrepareRequestDefaults(s, st.cookiesDir, acct), acct, cfg, "");
    match c.out
    case Done(sc) =>
      if sc.isLoggedIn then Pages(c.st, cfg, "undefined", 1, asWritten)
      else
        var l := LogIn(c.st, acct, asWritten);
        (match l.out
         case Done(resp) => Pages(l.st, cfg, Lookup(resp, "authorizationToken"), 1, asWritten)
         case Failed(e) => Step(Failed(e), l.st)
         case Stalled => Step(Stalled, l.st))
    case Failed(e) => Step(Failed(e), c.st)
    case Stalled => Step(Stalled, c.st)
  }

  /**
   * A logged-in run walks the pages with the token `undefined` and never
   * logs in; a logged-out run walks them with the token of the login reply.
   */
  lemma RunTokens(s: State, st: Settings, acct: Account, cfg: Config)
    ensures var c := CheckIfUserIsAlreadyLoggedIn(PrepareRequestDefaults(s, st.cookiesDir, acct), acct, cfg, "");
      (c.out.Done? && c.out.value.isLoggedIn ==> Run(s, st, acct, cfg, false) == Products(c.st, cfg, "undefined"))
      && (c.out.Done? && !c.out.value.isLoggedIn && LogIn(c.st, acct, false).out.Done? ==>
            var l := LogIn(c.st, acct, false);
            Run(s, st, acct, cfg, false) == Products(l.st, cfg, Lookup(l.out.value, "authorizationToken")))
  {
  }

  /**
   * As written, no run resolves: a logged-out run is rejected by the login
   * and never requests a page, and a logged-in run is rejected by its
   * first page.
   */
  lemma RunAsWrittenNeverResolves(s: State, st: Settings, acct: Account, cfg: Config)
    ensures !Run(s, st, acct, cfg, true).out.Done?
    ensures var c := CheckIfUserIsAlreadyLoggedIn(PrepareRequestDefaults(s, st.cookiesDir, acct), acct, cfg, "");
      c.out.Done? && !c.out.value.isLoggedIn ==> Run(s, st, acct, cfg, true) == Step(Failed(LogIn(c.st, acct, true).out.reason), LogIn(c.st, acct, true).st)
  {
    var c := CheckIfUserIsAlreadyLoggedIn(PrepareRequestDefaults(s, st.cookiesDir, acct), acct, cfg, "");
    if c.out.Done? && c.out.value.isLoggedIn {
      FirstPageAlwaysRejects(c.st, cfg, "undefined");
    }
  }

  // ---------------------------------------------------------------- package preparation

  /** A progress reply that decodes and does not yet say READY for the package. */
  predicate NotYetReady(r: Reply, packageId: string) {
    r.Answer? && r.response.doc.Decoded? && Lookup(r.response.doc.fields, packageId) != "READY"
  }

  predicate ReadyReply(r: Reply, packageId: string) {
    r.Answer? && r.response.doc.Decoded? && Lookup(r.response.doc.fields, packageId) == "READY"
  }

  /**
   * `prepareProductToDownload`: fetch the progress after a jittered second
   * until it says READY for the package. There is no attempt limit: only
   * READY, a failed fetch or a body that is not JSON ends the loop.
   */
  function Prepare(s: State, packageId: string, prepareLink: string): (r: Step<()>)
    ensures !r.out.Stalled?
    decreases |s.replies|
  {
    var p := GetPageBody(s, prepareLink, ONE_SECOND, false);
    if !p.out.Done? then Step(Failed(p.out.reason), p.st)
    else if !p.out.value.doc.Decoded? then Step(Failed(JSON_ERROR), p.st)
    else if Lookup(p.out.value.doc.fields, packageId) == "READY" then Step(Done(()), p.st)
    else Prepare(p.st, packageId, prepareLink)
  }

  /** How many progress requests the loop sends: up to and including the first reply that is not "not yet". */
  function Polls(rs: seq<Reply>, packageId: string): (n: nat)
    ensures 1 <= n <= |rs| + 1
    decreases |rs|
  {
    if NotYetReady(ReplyAt(rs, 0), packageId) then 1 + Polls(rs[1..], packageId) else 1
  }

  function PollEvents(prepareLink: string, n: nat): seq<Event> {
    if n == 0 then [] else [Wait(ONE_SECOND, true), Request(GET, prepareLink, Plain)] + PollEvents(prepareLink, n - 1)
  }

  /**
   * The loop reads replies until the first one that is not a decoded
   * "not yet"; it resolves exactly when that one says READY, and it has
   * then sent one request per reply read, each after a jittered second.
   */
  lemma PrepareValues(s: State, packageId: string, prepareLink: string)
    ensures var n := Polls(s.replies, packageId);
      var r := Prepare(s, packageId, prepareLink);
      (forall i :: 0 <= i < n - 1 ==> NotYetReady(ReplyAt(s.replies, i), packageId))
      && !NotYetReady(ReplyAt(s.replies, n - 1), packageId)
      && (r.out.Done? <==> ReadyReply(ReplyAt(s.replies, n - 1), packageId))
      && r.st.replies == Drop(s.replies, n)
      && r.st.trace == s.trace + PollEvents(prepareLink, n)
      && r.st.disk == s.disk
  {
    PrepareReplies(s, packageId, prepareLink);
    PrepareTrace(s, packageId, prepareLink);
  }

  /** The replies half of `PrepareValues`. */
  lemma {:induction false} PrepareReplies(s: State, packageId: string, prepareLink: string)
    ensures var n := Polls(s.replies, packageId);
      var r := Prepare(s, packageId, prepareLink);
      (forall i :: 0 <= i < n - 1 ==> NotYetReady(ReplyAt(s.replies, i), packageId))
      && !NotYetReady(ReplyAt(s.replies, n - 1), packageId)
      && (r.out.Done? <==> ReadyReply(ReplyAt(s.replies, n - 1), packageId))
      && r.st.replies == Drop(s.replies, n)
    decreases |s.replies|
  {
    var rs := s.replies;
    var n := Polls(rs, packageId);
    var p := GetPageBody(s, prepareLink, ONE_SECOND, false);
    PrepareStep(s, packageId, prepareLink);
    if NotYetReady(ReplyAt(rs, 0), packageId) {
      assert n == 1 + Polls(p.st.replies, packageId) by {
        assert Drop(rs, 1) == rs[1..];
      }
      PrepareReplies(p.st, packageId, prepareLink);
      forall i | 0 <= i < n - 1 ensures NotYetReady(ReplyAt(rs, i), packageId) {
        if i > 0 {
          ReplyAtDrop(rs, 1, i - 1);
        }
      }
      ReplyAtDrop(rs, 1, n - 2);
      DropDrop(rs, n - 1);
    }
  }

  /** The trace half of `PrepareValues`: one jittered second and one request per reply read. */
  lemma {:induction false} PrepareTrace(s: State, packageId: string, prepareLink: string)
    ensures var r := Prepare(s, packageId, prepareLink);
      r.st.trace == s.trace + PollEvents(prepareLink, Polls(s.replies, packageId))
      && r.st.disk == s.disk
    decreases |s.replies|
  {
    var rs := s.replies;
    var n := Polls(rs, packageId);
    var p := GetPageBody(s, prepareLink, ONE_SECOND, false);
    var ev := [Wait(ONE_SECOND, true), Request(GET, prepareLink, Plain)];
    var r := Prepare(s, packageId, prepareLink);
    if NotYetReady(ReplyAt(rs, 0), packageId) {
      var q := Prepare(p.st, packageId, prepareLink);
      assert r == q && p.st.trace == s.trace + ev && p.st.disk == s.disk by {
        PrepareStep(s, packageId, prepareLink);
      }
      assert n == 1 + Polls(p.st.replies, packageId) by {
        assert Drop(rs, 1) == rs[1..];
      }
      assert q.st.trace == p.st.trace + PollEvents(prepareLink, n - 1) && q.st.disk == p.st.disk by {
        PrepareTrace(p.st, packageId, prepareLink);
      }
      assert PollEvents(prepareLink, n) == ev + PollEvents(prepareLink, n - 1);
      AppendAssoc(s.trace, ev, PollEvents(prepareLink, n - 1));
    } else {
      assert r.st == p.st && n == 1 && p.st.trace == s.trace + ev && p.st.disk == s.disk by {
        PrepareStep(s, packageId, prepareLink);
      }
      assert PollEvents(prepareLink, 1) == ev + [];
      assert ev + [] == ev;
    }
  }

  /** One progress request: a "not yet" reply leaves the rest of the loop to the next replies; any other ends it. */
  lemma PrepareStep(s: State, packageId: string, prepareLink: string)
    ensures var p := GetPageBody(s, prepareLink, ONE_SECOND, false);
      var r := Prepare(s, packageId, prepareLink);
      p.st == s.(replies := Drop(s.replies, 1), trace := s.trace + [Wait(ONE_SECOND, true), Request(GET, prepareLink, Plain)])
      && (NotYetReady(ReplyAt(s.replies, 0), packageId) ==> r == Prepare(p.st, packageId, prepareLink))
      && (!NotYetReady(ReplyAt(s.replies, 0), packageId) ==>
            r.st == p.st && (r.out.Done? <==> ReadyReply(ReplyAt(s.replies, 0), packageId)))
  {
  }

  /** No attempt limit: however many "not yet" replies come first, the loop reads past all of them. */
  lemma NoAttemptLimit(rs: seq<Reply>, packageId: string, m: nat)
    requires forall i :: 0 <= i < m ==> NotYetReady(ReplyAt(rs, i), packageId)
    ensures Polls(rs, packageId) > m
  {
    if m > 0 {
      assert NotYetReady(ReplyAt(rs, 0), packageId);
      assert forall i :: 0 <= i < m - 1 ==> ReplyAt(rs[1..], i) == ReplyAt(rs, i + 1);
      NoAttemptLimit(rs[1..], packageId, m - 1);
    }
  }

  /** `prepareProductToDownload`: the do-while over the progress replies. */
  method PrepareProductToDownload(s0: State, packageId: string, prepareLink: string) returns (r: Step<()>)
    ensures r == Prepare(s0, packageId, prepareLink)
  {
    var s := s0;
    while true
      invariant Prepare(s0, packageId, prepareLink) == Prepare(s, packageId, prepareLink)
      decreases |s.replies|
    {
      var progress := GetPageBody(s, prepareLink, ONE_SECOND, false);
      if !progress.out.Done? {
        return Step(Failed(progress.out.reason), progress.st);
      }
      var response := progress.out.value.doc;
      if !response.Decoded? {
        return Step(Failed(JSON_ERROR), progress.st);
      }
      s := progress.st;
      if Lookup(response.fields, packageId) == "READY" {
        return Step(Done(()), s);
      }
    }
  }

  // ---------------------------------------------------------------- download links

  /** A package radio button as read from the download-types page: its label and its value. */
  datatype PackageType = PackageType(fileType: string, packageType: string)

  datatype DownloadLink = DownloadLink(fileType: string, url: string)

  datatype ProductLinks = ProductLinks(prepareLink: string, packageId: string, downloadLinks: seq<DownloadLink>)

  const DOWNLOAD_SET_URL := "https://www.publio.pl/klient/pobieranie/pobierz-zestaw.html"
  const PREPARE_URL := "https://www.publio.pl/klient/pobieranie/ajax/prepare.html"

  /** `getDownloadLinksFromPage`: one download link per package type, in order, and the prepare link. */
  function DownloadLinksFromPage(types: seq<PackageType>, packageId: string): (r: ProductLinks)
    ensures |r.downloadLinks| == |types|
    ensures forall i :: 0 <= i < |types| ==>
      (r.downloadLinks[i].fileType == types[i].fileType
       && EndsWith(r.downloadLinks[i].url, "&downloadPackageId=" + types[i].packageType))
  {
    ProductLinks(PREPARE_URL + "?statusId=" + packageId + "&startId=" + packageId, packageId,
                 Map(types, (t: PackageType) =>
                   DownloadLink(t.fileType, DOWNLOAD_SET_URL + "?downloadInfoId=" + packageId + ("&downloadPackageId=" + t.packageType))))
  }

  /** `getPackageId`: the scan of the page's scripts is commented out, so no id is ever found. */
  function GetPackageId(body: string): string {
    ""
  }

  /**
   * `getProductDownloadLinks` for a given package id: an empty id rejects
   * at once; otherwise the download-types page is fetched after a jittered
   * second and its package types (read by `scrape`) become the links.
   */
  function ProductDownloadLinksFor(s: State, cfg: Config, body: string, packageId: string,
                                   scrape: string -> seq<PackageType>): (r: Step<ProductLinks>)
    ensures !r.out.Stalled?
    ensures packageId == "" ==> r == Step(Failed("Could not find packageId within:\n" + body), s)
    ensures r.out.Done? ==> r.out.value.packageId == packageId
  {
    if packageId == "" then Step(Failed("Could not find packageId within:\n" + body), s)
    else
      var url := cfg.productDownloadTypesServiceUrl + "?id=" + packageId;
      var p := GetPageBody(s, url, ONE_SECOND, false);
      if p.out.Done? then Step(Done(DownloadLinksFromPage(scrape(p.out.value.body), packageId)), p.st)
      else Step(Failed("Could not get the page: " + url + ". Error: " + p.out.reason), p.st)
  }

  // ---------------------------------------------------------------- packages

  datatype ProductMetadata = ProductMetadata(productType: string, productTitle: string, authors: string)

  /**
   * `getProductMetadata` from the selected texts: the type text as is, the
   * title with white-space runs made one blank and trimmed, and the author
   * link titles trimmed and joined by ", ".
   */
  function GetProductMetadata(typeText: string, titleText: string, authorTitles: seq<string>): (m: ProductMetadata)
    ensures m.productTitle == [] || (!IsSpace(m.productTitle[0]) && !IsSpace(m.productTitle[|m.productTitle| - 1]))
  {
    ProductMetadata(typeText, Trim(CollapseSpaces(titleText)), DropSuffix(Terminated(Map(authorTitles, Trim), ", "), ", "))
  }

  /** The authors are the trimmed names joined by ", ", with no separator left at the end. */
  lemma MetadataAuthorsJoined(typeText: string, titleText: string, authorTitles: seq<string>)
    ensures GetProductMetadata(typeText, titleText, authorTitles).authors == Join(Map(authorTitles, Trim), ", ")
  {
    TerminatedDropped(Map(authorTitles, Trim), ", ");
  }

  const FILE_EXTENSIONS: map<string, string> := map["mp3" := "zip", "epub" := "epub", "mobi" := "mobi", "pdf" := "pdf"]

  /** The extension of a file type: the table entry for its lower-cased form, or the type itself. */
  function FileExtension(fileType: string): string {
    if Lower(fileType) in FILE_EXTENSIONS then FILE_EXTENSIONS[Lower(fileType)] else fileType
  }

  /** `prepareFileName`. */
  function PrepareFileName(packageTitle: string, fileType: string): string {
    packageTitle + "." + FileExtension(fileType)
  }

  /**
   * The table ignores case: types that lower-case alike and are in the
   * table share their extension, audio comes as a zip, and an unknown type
   * is kept as written.
   */
  lemma FileExtensionCases(a: string, b: string)
    ensures Lower(a) == Lower(b) && Lower(a) in FILE_EXTENSIONS ==> FileExtension(a) == FileExtension(b)
    ensures Lower(a) == "mp3" ==> FileExtension(a) == "zip"
    ensures Lower(a) !in FILE_EXTENSIONS ==> FileExtension(a) == a
  {
  }

  /** The package folder's name: the formatted title, then " - authors" only when there are authors. */
  function PackageTitle(st: Settings, meta: ProductMetadata): string {
    st.pathName(meta.productTitle) + (if meta.authors != "" then " - " + meta.authors else "")
  }

  function PackageDir(st: Settings, meta: ProductMetadata): string {
    st.booksDir + "/" + PackageTitle(st, meta)
  }

  /** One download link: skipped when its file is present, else downloaded. */
  function PackageStep(s: State, dir: string, title: string, link: DownloadLink): Step<()> {
    var fileName := PrepareFileName(title, link.fileType);
    if Files.ElementExists(s.disk, dir, fileName) then Step(Done(()), s)
    else DownloadFile(s, link.url, dir, fileName, true)
  }

  function PackagesFrom(s: State, dir: string, title: string, links: seq<DownloadLink>): Step<()>
    decreases |links|
  {
    if links == [] then Step(Done(()), s)
    else
      var r := PackageStep(s, dir, title, links[0]);
      if r.out.Done? then PackagesFrom(r.st, dir, title, links[1..]) else r
  }

  /** `downloadPublicationPackages`: the folder is made if missing, then each link in order. */
  function Packages(s: State, st: Settings, links: seq<DownloadLink>, meta: ProductMetadata): Step<()> {
    PackagesFrom(EnsureDirectory(s, PackageDir(st, meta)), PackageDir(st, meta), PackageTitle(st, meta), links)
  }

  /** `downloadPublicationPackages`: the loop over the download links. */
  method DownloadPublicationPackages(s: State, st: Settings, links: seq<DownloadLink>, meta: ProductMetadata) returns (r: Step<()>)
    ensures r == Packages(s, st, links, meta)
  {
    var packageTitle := st.pathName(meta.productTitle);
    if meta.authors != "" {
      packageTitle := packageTitle + " - " + meta.authors;
    }
    var downloadDir := st.booksDir + "/" + packageTitle;
    assert packageTitle == PackageTitle(st, meta);
    r := Step(Done(()), EnsureDirectory(s, downloadDir));
    var i := 0;
    while i < |links| && r.out.Done?
      invariant 0 <= i <= |links|
      invariant r.out.Done? ==> Packages(s, st, links, meta) == PackagesFrom(r.st, downloadDir, packageTitle, links[i..])
      invariant !r.out.Done? ==> Packages(s, st, links, meta) == r
    {
      assert links[i..][0] == links[i] && links[i..][1..] == links[i + 1..];
      var fileName := PrepareFileName(packageTitle, links[i].fileType);
      if !Files.ElementExists(r.st.disk, downloadDir, fileName) {
        r := DownloadFile(r.st, links[i].url, downloadDir, fileName, true);
      }
      i := i + 1;
    }
    if r.out.Done? {
      assert links[i..] == [];
      assert r.out.value == ();
    }
  }

  /**
   * The only files the package loop writes are the links' files in the
   * package folder, each under its prepared name.
   */
  lemma {:induction false} PackagesWriteOnlyTheirFiles(s: State, dir: string, title: string, links: seq<DownloadLink>)
    ensures var r := PackagesFrom(s, dir, title, links);
      forall k :: k in r.st.disk.files && (k !in s.disk.files || r.st.disk.files[k] != s.disk.files[k]) ==>
        exists l :: l in links && k == Files.Key(dir + "/" + PrepareFileName(title, l.fileType))
    decreases |links|
  {
    if links != [] {
      var r := PackageStep(s, dir, title, links[0]);
      var k0 := Files.Key(dir + "/" + PrepareFileName(title, links[0].fileType));
      assert forall k :: k in r.st.disk.files && (k !in s.disk.files || r.st.disk.files[k] != s.disk.files[k]) ==> k == k0;
      if r.out.Done? {
        PackagesWriteOnlyTheirFiles(r.st, dir, title, links[1..]);
        forall l | l in links[1..] ensures l in links { }
      }
      assert links[0] in links;
    }
  }

  /** A link whose file is already present is skipped: no request and no write. */
  lemma PresentPackageSkipped(s: State, dir: string, title: string, link: DownloadLink)
    requires Files.ElementExists(s.disk, dir, PrepareFileName(title, link.fileType))
    ensures PackageStep(s, dir, title, link) == Step(Done(()), s)
  {
  }

  /**
   * `prepareAndDownloadPublication` for a page whose package id reads
   * `packageId`: the links, the preparation of the package, then the
   * package downloads. `scrape` reads the download-types page.
   */
  function PrepareAndDownloadPublicationFor(s: State, st: Settings, cfg: Config, body: string, packageId: string,
                                            meta: ProductMetadata, scrape: string -> seq<PackageType>): Step<()>
  {
    var l := ProductDownloadLinksFor(s, cfg, body, packageId, scrape);
    if !l.out.Done? then Step(Failed(l.out.reason), l.st)
    else
      var p := Prepare(l.st, l.out.value.packageId, l.out.value.prepareLink);
      if !p.out.Done? then Step(Failed(p.out.reason), p.st)
      else Packages(p.st, st, l.out.value.downloadLinks, meta)
  }

  /**
   * Since no package id is ever found, preparing a publication always
   * rejects before any request: nothing is prepared, fetched or written.
   */
  lemma PublicationNeverDownloaded(s: State, st: Settings, cfg: Config, body: string, meta: ProductMetadata,
                                   scrape: string -> seq<PackageType>)
    ensures PrepareAndDownloadPublicationFor(s, st, cfg, body, GetPackageId(body), meta, scrape)
      == Step(Failed("Could not find packageId within:\n" + body), s)
  {
  }

  // ---------------------------------------------------------------- issues pages

  /** Whether a pagination href leads to another issues page: it names a page number. */
  predicate IsIssuesPageHref(href: string) {
    Contains(href, "pageNumber")
  }

  /** What `getPagesLinks` returns: the main page address before each page-number href, each address once. */
  function PagesLinks(mainPageUrl: string, hrefs: seq<string>): seq<string> {
    Dedup(Map(Filter(hrefs, IsIssuesPageHref), h => mainPageUrl + h))
  }

  /**
   * `getPagesLinks`: the pagination hrefs naming a page number, prefixed
   * with the main page address, in the order of their first appearance.
   */
  method GetPagesLinks(mainPageUrl: string, hrefs: seq<string>) returns (r: seq<string>)
    ensures r == PagesLinks(mainPageUrl, hrefs)
    ensures Distinct(r)
    ensures forall u :: u in r <==> exists i :: 0 <= i < |hrefs| && IsIssuesPageHref(hrefs[i]) && u == mainPageUrl + hrefs[i]
  {
    var kept := Filter(hrefs, IsIssuesPageHref);
    r := CollectDistinct(kept, h => mainPageUrl + h);
    forall u
      ensures u in r <==> exists i :: 0 <= i < |hrefs| && IsIssuesPageHref(hrefs[i]) && u == mainPageUrl + hrefs[i]
    {
      var m := Map(kept, h => mainPageUrl + h);
      if u in r {
        var k :| 0 <= k < |m| && m[k] == u;
        assert kept[k] in kept;
        var i :| 0 <= i < |hrefs| && hrefs[i] == kept[k];
      }
      if exists i :: 0 <= i < |hrefs| && IsIssuesPageHref(hrefs[i]) && u == mainPageUrl + hrefs[i] {
        var i :| 0 <= i < |hrefs| && IsIssuesPageHref(hrefs[i]) && u == mainPageUrl + hrefs[i];
        assert hrefs[i] in kept;
        var k :| 0 <= k < |kept| && kept[k] == hrefs[i];
        assert m[k] == u;
      }
    }
  }

  /**
   * The loop of `downloadAllPublicationIssues`: each issues page is fetched
   * after a jittered second and its body dropped (the per-page download is
   * commented out); the first failed fetch rejects.
   */
  function IssuesPages(s: State, urls: seq<string>): (r: Step<()>)
    ensures !r.out.Stalled?
    ensures r.st.disk == s.disk
    ensures r.out.Done? <==> forall i :: 0 <= i < |urls| ==> ReplyAt(s.replies, i).Answer?
    decreases |urls|
  {
    if urls == [] then Step(Done(()), s)
    else
      var g := GetPageBody(s, urls[0], ONE_SECOND, false);
      if !g.out.Done? then Step(Failed(g.out.reason), g.st)
      else
        var r := IssuesPages(g.st, urls[1..]);
        assert (forall i :: 0 <= i < |urls| ==> ReplyAt(s.replies, i).Answer?)
            <==> (forall i :: 0 <= i < |urls| - 1 ==> ReplyAt(g.st.replies, i).Answer?) by {
          forall i | 0 <= i < |urls| - 1 ensures ReplyAt(g.st.replies, i) == ReplyAt(s.replies, i + 1) {
            ReplyAtDrop(s.replies, 1, i);
          }
          if forall i :: 0 <= i < |urls| - 1 ==> ReplyAt(g.st.replies, i).Answer? {
            forall i | 0 <= i < |urls| ensures ReplyAt(s.replies, i).Answer? {
              if i > 0 { assert ReplyAt(g.st.replies, i - 1).Answer?; }
            }
          }
        }
        r
  }

  /** Each page fetch adds a pause and a GET of that page, in the order of the list, and nothing else. */
  function IssuesTrace(urls: seq<string>): seq<Event> {
    if urls == [] then [] else [Wait(ONE_SECOND, true), Request(GET, urls[0], Plain)] + IssuesTrace(urls[1..])
  }

  /** A walk that resolves has requested every issues page once, in order, and written nothing. */
  lemma {:induction false} IssuesPagesTrace(s: State, urls: seq<string>)
    requires IssuesPages(s, urls).out.Done?
    ensures IssuesPages(s, urls).st.trace == s.trace + IssuesTrace(urls)
    decreases |urls|
  {
    if urls != [] {
      var g := GetPageBody(s, urls[0], ONE_SECOND, false);
      IssuesPagesTrace(g.st, urls[1..]);
    }
  }

  /** `downloadAllPublicationIssues`: the issues page links of the product page, each fetched in turn. */
  method DownloadAllPublicationIssues(s: State, mainPageUrl: string, hrefs: seq<string>) returns (r: Step<()>)
    ensures r == IssuesPages(s, PagesLinks(mainPageUrl, hrefs))
  {
    var links := GetPagesLinks(mainPageUrl, hrefs);
    var cur := s;
    var i := 0;
    while i < |links|
      invariant 0 <= i <= |links|
      invariant IssuesPages(s, links) == IssuesPages(cur, links[i..])
    {
      var g := GetPageBody(cur, links[i], ONE_SECOND, false);
      if !g.out.Done? {
        return Step(Failed(g.out.reason), g.st);
      }
      assert links[i..][1..] == links[i + 1..];
      cur := g.st;
      i := i + 1;
    }
    return Step(Done(()), cur);
  }

  /**
   * `downloadPublication`: the product page is fetched after a jittered
   * second (its failure rejects); a press title walks its issues pages, any
   * other product is prepared and downloaded; the step resolves with the
   * product page's body. `hrefs`, `meta` and `scrape` read the pages.
   */
  function DownloadPublication(s: State, st: Settings, cfg: Config, mainPageUrl: string, elem: string,
                               hrefs: string -> seq<string>, meta: string -> ProductMetadata,
                               scrape: string -> seq<PackageType>): (r: Step<string>)
    ensures !r.out.Stalled?
    ensures var g := GetPageBody(s, mainPageUrl + elem, ONE_SECOND, false);
      (g.out.Failed? ==> r == Step(Failed(g.out.reason), g.st))
      && (g.out.Done? && !Contains(elem, "pressTitle") ==>
            r == Step(Failed("Could not find packageId within:\n" + g.out.value.body), g.st))
      && (g.out.Done? && Contains(elem, "pressTitle") ==>
            (r.out.Done? <==> IssuesPages(g.st, PagesLinks(mainPageUrl, hrefs(g.out.value.body))).out.Done?)
            && (r.out.Done? ==> r.out.value == g.out.value.body))
  {
    var g := GetPageBody(s, mainPageUrl + elem, ONE_SECOND, false);
    if !g.out.Done? then Step(Failed(g.out.reason), g.st)
    else
      var body := g.out.value.body;
      var w := if Contains(elem, "pressTitle") then IssuesPages(g.st, PagesLinks(mainPageUrl, hrefs(body)))
               else PrepareAndDownloadPublicationFor(g.st, st, cfg, body, GetPackageId(body), meta(body), scrape);
      PublicationNeverDownloaded(g.st, st, cfg, body, meta(body), scrape);
      if w.out.Done? then Step(Done(body), w.st) else Step(Failed(w.out.reason), w.st)
  }
}
