/**
 * The steps every bookstore adapter shares: the cookie file of an account,
 * the logged-in check, page fetches with their pauses, the size-gated
 * download and the plain download, and the login-form submission followed
 * by a second logged-in check.
 */
module Bookstore {
  import opened Wrappers
  import opened Text
  import Files
  import opened Env

  /**
   * What an adapter is constructed with. `pathName` stands for the external
   * `formatPathName` helper that turns a title into a file name; nothing is
   * assumed about it.
   */
  datatype Settings = Settings(cookiesDir: string, booksDir: string, maxFileSize: nat, pathName: string -> string)

  /** The configuration fields of a store entry that every adapter reads. */
  datatype Account = Account(
    login: string, password: string, moduleName: string,
    bookshelfUrl: string, loginFormUrl: string, loginServiceUrl: string, mainPageUrl: string)

  /** The answer of a logged-in check: the verdict and the page body fetched. */
  datatype ShelfCheck = ShelfCheck(isLoggedIn: bool, body: string)

  /**
   * A second in milliseconds, the intended value of `timingUtils.ONE_SECOND`;
   * the shared module never declares it, so the code itself waits `NaN`,
   * which fires at once.
   */
  const ONE_SECOND: nat := 1000

  // ---------------------------------------------------------------- the run

  /**
   * `getBooks`: prepare the cookie file, ask whether the user is logged in,
   * submit the login only when not, and walk the products from the
   * bookshelf body so obtained. `check`, `logIn` and `products` are the
   * adapter's own steps; a step that rejects (or never settles) ends the run.
   */
  function GetBooks(s: State, cookiesDir: string, acct: Account,
                    check: State -> Step<ShelfCheck>, logIn: State -> Step<string>,
                    products: (State, string) -> Step<()>): Step<()>
  {
    var c := check(PrepareRequestDefaults(s, cookiesDir, acct));
    match c.out
    case Done(sc) =>
      if sc.isLoggedIn then products(c.st, sc.body)
      else
        var l := logIn(c.st);
        (match l.out
         case Done(body) => products(l.st, body)
         case Failed(e) => Step(Failed(e), l.st)
         case Stalled => Step(Stalled, l.st))
    case Failed(e) => Step(Failed(e), c.st)
    case Stalled => Step(Stalled, c.st)
  }

  /**
   * A check that finds the user logged in skips the login entirely: the
   * products are walked from the state and the body the check left.
   */
  lemma LoggedInSkipsLogin(s: State, cookiesDir: string, acct: Account,
                           check: State -> Step<ShelfCheck>, logIn: State -> Step<string>,
                           products: (State, string) -> Step<()>)
    requires var c := check(PrepareRequestDefaults(s, cookiesDir, acct));
      c.out.Done? && c.out.value.isLoggedIn
    ensures var c := check(PrepareRequestDefaults(s, cookiesDir, acct));
      GetBooks(s, cookiesDir, acct, check, logIn, products) == products(c.st, c.out.value.body)
  {
  }

  /**
   * A check that finds the user logged out runs the login once, from the
   * state the check left; the products are walked only from a successful
   * login's body, and a failed login ends the run with its reason.
   */
  lemma LoggedOutLogsIn(s: State, cookiesDir: string, acct: Account,
                        check: State -> Step<ShelfCheck>, logIn: State -> Step<string>,
                        products: (State, string) -> Step<()>)
    requires var c := check(PrepareRequestDefaults(s, cookiesDir, acct));
      c.out.Done? && !c.out.value.isLoggedIn
    ensures var c := check(PrepareRequestDefaults(s, cookiesDir, acct));
      var l := logIn(c.st);
      var r := GetBooks(s, cookiesDir, acct, check, logIn, products);
      (l.out.Done? ==> r == products(l.st, l.out.value))
      && (l.out.Failed? ==> r == Step(Failed(l.out.reason), l.st))
  {
  }

  /** A check that rejects ends the run before any login or product step. */
  lemma FailedCheckEndsRun(s: State, cookiesDir: string, acct: Account,
                           check: State -> Step<ShelfCheck>, logIn: State -> Step<string>,
                           products: (State, string) -> Step<()>)
    requires check(PrepareRequestDefaults(s, cookiesDir, acct)).out.Failed?
    ensures var c := check(PrepareRequestDefaults(s, cookiesDir, acct));
      GetBooks(s, cookiesDir, acct, check, logIn, products) == Step(Failed(c.out.reason), c.st)
  {
  }

  // ---------------------------------------------------------------- cookies

  /** The cookie file of an account. */
  function CookiePath(cookiesDir: string, login: string, moduleName: string): string {
    cookiesDir + ReplaceFirst(login, "@", "-") + "." + moduleName + ".cookies.json"
  }

  /**
   * The cookie file sits in the cookie directory, ends in
   * ".<module>.cookies.json", and spells the login with its first '@' (and
   * only that one) turned into '-'.
   */
  lemma CookiePathShape(cookiesDir: string, login: string, moduleName: string)
    ensures var p := CookiePath(cookiesDir, login, moduleName);
      |p| == |cookiesDir| + |login| + |moduleName| + 14
      && p[..|cookiesDir|] == cookiesDir
      && EndsWith(p, "." + moduleName + ".cookies.json")
      && forall i :: 0 <= i < |login| ==>
           p[|cookiesDir| + i] == (if i == IndexOf(login, "@") then '-' else login[i])
  {
    var p := CookiePath(cookiesDir, login, moduleName);
    var l := ReplaceFirst(login, "@", "-");
    var k := IndexOf(login, "@");
    assert |l| == |login|;
    forall i | 0 <= i < |login| ensures l[i] == (if i == k then '-' else login[i]) {
      if k >= 0 {
        if i < k {
          assert l[..k][i] == login[..k][i];
        } else if i > k {
          assert l[k + 1..][i - k - 1] == login[k + 1..][i - k - 1];
        } else {
          assert l[k..k + 1][0] == '-';
        }
      }
    }
    assert p == cookiesDir + l + ("." + moduleName + ".cookies.json");
  }

  /**
   * `prepareRequestDefaults`: the cookie file is created empty when nothing
   * is at its path, and left alone otherwise.
   */
  function PrepareRequestDefaults(s: State, cookiesDir: string, acct: Account): (s': State)
    ensures Files.Exists(s'.disk, CookiePath(cookiesDir, acct.login, acct.moduleName))
    ensures Files.Exists(s.disk, CookiePath(cookiesDir, acct.login, acct.moduleName)) ==> s' == s
    ensures !Files.Exists(s.disk, CookiePath(cookiesDir, acct.login, acct.moduleName)) ==>
      var key := Files.Key(CookiePath(cookiesDir, acct.login, acct.moduleName));
      s'.disk.files == s.disk.files[key := 0] && s'.disk.dirs == s.disk.dirs && s'.replies == s.replies
  {
    var path := CookiePath(cookiesDir, acct.login, acct.moduleName);
    if Files.Exists(s.disk, path) then s else WriteFile(s, path, 0)
  }

  // ---------------------------------------------------------------- logged-in check

  /** The base test: logged in unless the final URL holds the not-logged-in marker anywhere. */
  predicate MarkerAbsent(finalUrl: string, marker: string)
    ensures MarkerAbsent(finalUrl, marker) <==> forall j :: !OccursAt(finalUrl, marker, j)
  {
    ContainsIff(finalUrl, marker);
    IndexOf(finalUrl, marker) < 0
  }

  /**
   * `checkIfUserIsLoggedIn`: fetches the bookshelf and reports the verdict
   * with the page body; a failed request rejects naming the login.
   */
  function CheckIfUserIsLoggedIn(s: State, acct: Account, marker: string): (r: Step<ShelfCheck>)
    ensures r.st == Get(s, acct.bookshelfUrl).st
    ensures r.out.Done? <==> ReplyAt(s.replies, 0).Answer?
    ensures r.out.Done? ==> var resp := ReplyAt(s.replies, 0).response;
      r.out.value.body == resp.body
      && (r.out.value.isLoggedIn <==> forall j :: !OccursAt(resp.finalUrl, marker, j))
    ensures r.out.Failed? ==> StartsWith(r.out.reason, "Could not check if " + acct.login + " is logged in.")
  {
    var a := Get(s, acct.bookshelfUrl);
    match a.reply
    case TransportError(e, _, _) =>
      var msg := "Could not check if " + acct.login + " is logged in. Error: " + e;
      assert msg == ("Could not check if " + acct.login + " is logged in.") + (" Error: " + e);
      Step(Failed(msg), a.st)
    case Answer(resp) => Step(Done(ShelfCheck(MarkerAbsent(resp.finalUrl, marker), resp.body)), a.st)
  }

  // ---------------------------------------------------------------- page fetches

  /** `getPageBody`: an exact or jittered pause, then a GET whose failure rejects with its error. */
  function GetPageBody(s: State, url: string, delay: nat, exact: bool): (r: Step<Response>)
    ensures r.st.trace == s.trace + [Wait(delay, !exact), Request(GET, url, Plain)]
    ensures r.st.disk == s.disk && r.st.replies == Drop(s.replies, 1)
    ensures ReplyAt(s.replies, 0).Answer? ==> r.out == Done(ReplyAt(s.replies, 0).response)
    ensures ReplyAt(s.replies, 0).TransportError? ==> r.out == Failed(ReplyAt(s.replies, 0).reason)
  {
    var a := Get(Pause(s, delay, !exact), url);
    match a.reply
    case TransportError(e, _, _) => Step(Failed(e), a.st)
    case Answer(resp) => Step(Done(resp), a.st)
  }

  /**
   * `visitLoginForm`: the form is fetched after a zero jittered pause, while
   * an exact three-second pause runs beside it; the step ends when both have.
   */
  function VisitLoginForm(s: State, url: string): (r: Step<Response>)
    ensures r.st.trace == s.trace + [Wait(0, true), Request(GET, url, Plain), Wait(3 * ONE_SECOND, false)]
    ensures r.out.Done? <==> ReplyAt(s.replies, 0).Answer?
    ensures r.out.Done? ==> r.out.value == ReplyAt(s.replies, 0).response
    ensures !r.out.Done? ==> r.out == Failed(ReplyAt(s.replies, 0).reason)
    ensures r.st.disk == s.disk && r.st.replies == Drop(s.replies, 1)
  {
    var page := GetPageBody(s, url, 0, false);
    Step(page.out, Pause(page.st, 3 * ONE_SECOND, false))
  }

  // ---------------------------------------------------------------- downloads

  /** `if (!checkIfDirectoryExists(dir)) mkdirSync(dir)`. */
  function EnsureDirectory(s: State, dir: string): (s': State)
    ensures Files.DirectoryExists(s'.disk, dir)
    ensures s'.disk.files == s.disk.files && s'.replies == s.replies
    ensures Files.DirectoryExists(s.disk, dir) ==> s' == s
    ensures !Files.DirectoryExists(s.disk, dir) ==>
              s'.trace == s.trace + [MakeDir(dir)] && s'.disk.dirs == s.disk.dirs + {Files.Key(dir)}
  {
    if Files.DirectoryExists(s.disk, dir) then s else MakeDirectory(s, dir)
  }

  /** The base ceiling: a declared length strictly below the maximum; an absent length never passes. */
  predicate SizeBelow(contentLength: Option<nat>, maxFileSize: nat) {
    contentLength.Some? && contentLength.value < maxFileSize
  }

  /** The address `downloadFile` requests: URI-encoded when encoding is on, as given otherwise. */
  function FileUrl(url: string, encode: bool): (r: string)
    ensures !encode ==> r == url
    ensures encode ==> UriText(r) && (r == url <==> AllKept(url))
  {
    if encode then EncodeUri(url) else url
  }

  /**
   * `downloadFile`: a GET of the (optionally URI-encoded) address; the file
   * `dir/name` is written with the whole body only once it has arrived, and
   * a failure rejects without writing. The delay argument is never used.
   */
  function DownloadFile(s: State, url: string, dir: string, name: string, encode: bool): (r: Step<()>)
    ensures r.out.Done? <==> ReplyAt(s.replies, 0).Answer?
    ensures !r.out.Stalled?
    ensures r.out.Done? ==>
      var size := |ReplyAt(s.replies, 0).response.body|;
      r.st.disk == Files.Write(s.disk, dir + "/" + name, size)
      && r.st.trace == s.trace + [Request(GET, url, Plain.(encoded := encode)), Write(dir + "/" + name, size)]
      && (Files.ElementExists(r.st.disk, dir, name) <==> size > 0)
    ensures r.out.Failed? ==>
      r.st.disk == s.disk && r.st.trace == s.trace + [Request(GET, url, Plain.(encoded := encode))]
      && r.out.reason == "Error getting: " + FileUrl(url, encode) + " - " + ReplyAt(s.replies, 0).reason
  {
    var a := Send(s, GET, url, Plain.(encoded := encode));
    match a.reply
    case TransportError(e, _, _) => Step(Failed("Error getting: " + FileUrl(url, encode) + " - " + e), a.st)
    case Answer(resp) =>
      Files.WrittenFileExists(s.disk, dir, name, |resp.body|);
      Step(Done(()), WriteFile(a.st, dir + "/" + name, |resp.body|))
  }

  /**
   * `checkSizeAndDownloadFile`: a HEAD request on the encoded address; the
   * download follows exactly when the declared length is below the maximum,
   * otherwise the step resolves having fetched nothing. A failed HEAD rejects
   * and nothing is downloaded.
   */
  function CheckSizeAndDownloadFile(s: State, maxFileSize: nat, url: string, dir: string, name: string): (r: Step<()>)
    ensures var head := ReplyAt(s.replies, 0);
      var probed := Send(s, HEAD, url, Plain.(encoded := true)).st;
      (head.TransportError? ==> r.out.Failed? && r.st == probed)
      && (head.Answer? && !SizeBelow(head.response.contentLength, maxFileSize) ==> r.out == Done(()) && r.st == probed)
      && (head.Answer? && SizeBelow(head.response.contentLength, maxFileSize) ==> r == DownloadFile(probed, url, dir, name, true))
    ensures r.st.disk != s.disk ==> SizeBelow(ReplyAt(s.replies, 0).response.contentLength, maxFileSize)
  {
    var h := Send(s, HEAD, url, Plain.(encoded := true));
    match h.reply
    case TransportError(e, _, _) =>
      Step(Failed("Could not execute HEAD request for " + name + " from url " + url + ": " + e), h.st)
    case Answer(resp) =>
      if SizeBelow(resp.contentLength, maxFileSize) then DownloadFile(h.st, url, dir, name, true)
      else Step(Done(()), h.st)
  }

  // ---------------------------------------------------------------- login form

  /**
   * `sendLoginForm`: posts the form, then checks again; resolves with the
   * bookshelf body exactly when both requests were answered and the second
   * check finds the user logged in, and otherwise rejects naming the login.
   */
  function SendLoginForm(s: State, acct: Account, marker: string, opts: Options): (r: Step<string>)
    ensures !r.out.Stalled?
    ensures r.out.Done? <==>
      ReplyAt(s.replies, 0).Answer? && ReplyAt(s.replies, 1).Answer?
      && MarkerAbsent(ReplyAt(s.replies, 1).response.finalUrl, marker)
    ensures r.out.Done? ==> r.out.value == ReplyAt(s.replies, 1).response.body
    ensures r.out.Failed? ==> Contains(r.out.reason, acct.login)
    ensures ReplyAt(s.replies, 0).Answer? ==>
      r.st.trace == s.trace + [Request(POST, acct.loginServiceUrl, opts), Request(GET, acct.bookshelfUrl, Plain)]
    ensures r.st.disk == s.disk
  {
    var p := Send(s, POST, acct.loginServiceUrl, opts);
    match p.reply
    case TransportError(e, _, _) => Step(Failed(Mention("Could not log in as ", acct.login, ". Error: " + e)), p.st)
    case Answer(_) =>
      var c := CheckIfUserIsLoggedIn(p.st, acct, marker);
      match c.out
      case Done(check) =>
        if check.isLoggedIn then Step(Done(check.body), c.st)
        else Step(Failed(Mention("Could not log in as ", acct.login, "")), c.st)
      case Failed(e) => Step(Failed(Mention("Could not check if ", acct.login, " is logged in. Error: " + e)), c.st)
      case Stalled => Step(Stalled, c.st)
  }

  /** A message built around the login names it. */
  function Mention(pre: string, login: string, post: string): (m: string)
    ensures m == pre + login + post && Contains(m, login)
  {
    MentionsLogin(pre, login, post);
    pre + login + post
  }

  lemma MentionsLogin(pre: string, login: string, post: string)
    ensures Contains(pre + login + post, login)
  {
    var s := pre + login + post;
    assert s[|pre|..|pre| + |login|] == login;
    assert OccursAt(s, login, |pre|);
    ContainsIff(s, login);
  }
}
