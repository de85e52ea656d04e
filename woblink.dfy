/**
 * The Woblink adapter: a form login, a bookshelf spread over several pages,
 * and for every format of a book a generation service that is asked, up to
 * ten times, whether the file is ready; a ready file is downloaded from an
 * address template.
 */
module Woblink {
  import opened Wrappers
  import opened Text
  import Files
  import opened Env
  import opened Bookstore
  import opened Lists

  const NOT_LOGGED_IN_MARKER := "logowanie"
  const MAX_TRIES: nat := 10
  const GENERATION_WAIT: nat := 10 * ONE_SECOND

  /** The store entry's addresses this adapter reads besides the common ones. */
  datatype Config = Config(generateProductService: string, downloadUrl: string)

  /**
   * A `.shelf-book` element as the selectors read it: its attributes, the
   * text of its `h3`, the first text of every author link and of every
   * format label.
   */
  datatype Book = Book(attribs: map<string, string>, titleText: string, authorTexts: seq<string>, formatTexts: seq<string>)

  /** What the adapter selects from a bookshelf page: the books and the pagination hrefs. */
  datatype Shelf = Shelf(books: seq<Book>, pageHrefs: seq<string>)

  datatype Metadata = Metadata(kind: string, bookId: string, copyId: string, title: string)

  datatype BookData = BookData(meta: Metadata, title: string, authors: string, formats: seq<string>)

  // ---------------------------------------------------------------- login

  /** The login form as the HTTP client encodes the nested `login` object. */
  function LoginForm(acct: Account): map<string, string> {
    map["login[email]" := acct.login, "login[password]" := acct.password, "referer" := acct.bookshelfUrl]
  }

  /**
   * `logIn`: visit the login form, then post the credentials; the login
   * resolves with the post's body exactly when its final URL lacks
   * "logowanie", and otherwise rejects naming the login. A failed visit
   * rejects before anything is posted; a failed post is never handled, so
   * the login never settles.
   */
  function LogIn(s: State, acct: Account): (r: Step<string>)
    ensures r.out.Done? <==> (ReplyAt(s.replies, 0).Answer? && ReplyAt(s.replies, 1).Answer?
      && MarkerAbsent(ReplyAt(s.replies, 1).response.finalUrl, NOT_LOGGED_IN_MARKER))
    ensures r.out.Done? ==> r.out.value == ReplyAt(s.replies, 1).response.body
    ensures r.out.Stalled? <==> ReplyAt(s.replies, 0).Answer? && ReplyAt(s.replies, 1).TransportError?
    ensures ReplyAt(s.replies, 0).TransportError? ==> r.out == Failed(ReplyAt(s.replies, 0).reason)
    ensures r.out.Failed? && ReplyAt(s.replies, 0).Answer? ==> Contains(r.out.reason, acct.login)
    ensures ReplyAt(s.replies, 0).Answer? ==>
      r.st.trace == s.trace + [Wait(0, true), Request(GET, acct.loginFormUrl, Plain), Wait(3 * ONE_SECOND, false),
                               Request(POST, acct.loginServiceUrl, FormOf(LoginForm(acct)))]
    ensures r.st.disk == s.disk
  {
    var v := VisitLoginForm(s, acct.loginFormUrl);
    ReplyAtDrop(s.replies, 1, 0);
    match v.out
    case Done(_) =>
      var p := Send(v.st, POST, acct.loginServiceUrl, FormOf(LoginForm(acct)));
      (match p.reply
       case TransportError(_, _, _) => Step(Stalled, p.st)
       case Answer(resp) =>
         if MarkerAbsent(resp.finalUrl, NOT_LOGGED_IN_MARKER) then Step(Done(resp.body), p.st)
         else Step(Failed(Mention("Could not log in as ", acct.login, "")), p.st))
    case Failed(e) => Step(Failed(e), v.st)
    case Stalled => Step(Stalled, v.st)
  }

  // ---------------------------------------------------------------- book data

  /** `getBookMetadata`: the data attributes of the element; a missing one reads `undefined`. */
  function GetBookMetadata(attribs: map<string, string>): Metadata {
    Metadata(Lookup(attribs, "data-type"), Lookup(attribs, "data-book-id"),
             Lookup(attribs, "data-copy-id"), Lookup(attribs, "data-book-title"))
  }

  /**
   * `getBookAuthors`: every name trimmed and followed by ", ", the final
   * ", " dropped, then every white-space run turned into one blank.
   */
  function GetBookAuthors(texts: seq<string>): string {
    CollapseSpaces(DropSuffix(Terminated(Map(texts, Trim), ", "), ", "))
  }

  /** The authors are the trimmed names joined by ", ", with no separator left at the end. */
  lemma AuthorsJoined(texts: seq<string>)
    ensures GetBookAuthors(texts) == CollapseSpaces(Join(Map(texts, Trim), ", "))
  {
    TerminatedDropped(Map(texts, Trim), ", ");
  }

  predicate NotBlank(e: string) {
    Trim(e) != []
  }

  /**
   * `getBookFormats`: every label trimmed and followed by ", ", the whole
   * split on ", ", and the blank pieces dropped.
   */
  function GetBookFormats(texts: seq<string>): (r: seq<string>)
    ensures forall e :: e in r ==> Trim(e) != []
  {
    Filter(SplitOn(Terminated(Map(texts, Trim), ", "), ", "), NotBlank)
  }

  /** Labels that are not blank and hold no ',' come back trimmed, all of them, in order. */
  lemma FormatsRoundTrip(texts: seq<string>)
    requires forall i :: 0 <= i < |texts| ==> Trim(texts[i]) != [] && ',' !in Trim(texts[i])
    ensures GetBookFormats(texts) == Map(texts, Trim)
  {
    var names := Map(texts, Trim);
    calc {
      GetBookFormats(texts);
      Filter(SplitOn(Terminated(names, ", "), ", "), NotBlank);
      { NamesSplitBack(texts); }
      Filter(names + [""], NotBlank);
      { FilterAppend(names, [""], NotBlank); }
      Filter(names, NotBlank) + Filter([""], NotBlank);
      { TrimmedNotBlank(texts); BlankDropped(); }
      names + [];
      names;
    }
  }

  /** Trimmed labels with no ',' split back into themselves, and an empty piece after the last separator. */
  lemma NamesSplitBack(texts: seq<string>)
    requires forall i :: 0 <= i < |texts| ==> ',' !in Trim(texts[i])
    ensures SplitOn(Terminated(Map(texts, Trim), ", "), ", ") == Map(texts, Trim) + [""]
  {
    var names := Map(texts, Trim);
    assert forall e :: e in names ==> ',' !in e;
    SplitTerminated(names, ", ");
  }

  /** Labels whose trimmed text is not empty stay not blank once trimmed. */
  lemma TrimmedNotBlank(texts: seq<string>)
    requires forall i :: 0 <= i < |texts| ==> Trim(texts[i]) != []
    ensures forall i :: 0 <= i < |texts| ==> NotBlank(Map(texts, Trim)[i])
  {
    var names := Map(texts, Trim);
    forall i | 0 <= i < |names| ensures NotBlank(names[i]) {
      TrimmedStays(texts[i]);
    }
  }

  /** Trimming twice is trimming once. */
  lemma TrimmedStays(e: string)
    ensures Trim(Trim(e)) == Trim(e)
  {
    var n := Trim(e);
    assert n == [] || (!IsSpace(n[0]) && !IsSpace(n[|n| - 1]));
  }

  /** The empty piece after the last separator is dropped. */
  lemma BlankDropped()
    ensures Filter([""], NotBlank) == []
  {
    assert Trim("") == [];
    assert [""][1..] == [];
  }

  /** `getPublicationsData`: the metadata, the `h3` text as title, the authors and the formats. */
  function GetPublicationsData(b: Book): BookData {
    BookData(GetBookMetadata(b.attribs), b.titleText, GetBookAuthors(b.authorTexts), GetBookFormats(b.formatTexts))
  }

  // ---------------------------------------------------------------- pages

  /** A page link: the main page address glued to the href, repeated slashes collapsed. */
  function PageUrl(mainPageUrl: string): string -> string {
    href => CollapseSlashes(mainPageUrl + href)
  }

  /**
   * `getPageUrls` yields each link once, in the order of first appearance,
   * and no link holds a doubled slash except right after ':' (or at the
   * very start).
   */
  lemma PageUrlsShape(hrefs: seq<string>, mainPageUrl: string)
    ensures var urls := Dedup(Map(hrefs, PageUrl(mainPageUrl)));
      Distinct(urls)
      && (forall u :: u in urls <==> exists h :: h in hrefs && u == CollapseSlashes(mainPageUrl + h))
      && (forall u :: u in urls ==> SlashPairsAfterColon(u))
  {
    var m := Map(hrefs, PageUrl(mainPageUrl));
    DedupSpec(m);
    forall u | u in m ensures SlashPairsAfterColon(u) && exists h :: h in hrefs && u == CollapseSlashes(mainPageUrl + h) {
      var i :| 0 <= i < |m| && m[i] == u;
      assert hrefs[i] in hrefs;
      CollapseSlashesDoubles(mainPageUrl + hrefs[i]);
    }
    forall u | exists h :: h in hrefs && u == CollapseSlashes(mainPageUrl + h) ensures u in m {
      var h :| h in hrefs && u == CollapseSlashes(mainPageUrl + h);
      var i :| 0 <= i < |hrefs| && hrefs[i] == h;
      assert m[i] == u;
    }
  }

  // ---------------------------------------------------------------- generation

  /** How one reply of the generation service reads. */
  datatype Verdict =
    | Throws      // the request failed or the body is not JSON
    | Undefined   // no body: the previous response object stays
    | NotReady
    | Ready

  /** The decoded `ready` flag is set. */
  predicate ReadyFlag(fields: map<string, string>) {
    "ready" in fields && fields["ready"] == "true"
  }

  function VerdictOf(r: Reply): Verdict {
    match r
    case TransportError(_, _, _) => Throws
    case Answer(resp) =>
      match resp.doc
      case Missing => Undefined
      case Unparsable => Throws
      case Decoded(fields, _, _) => if ReadyFlag(fields) then Ready else NotReady
  }

  /**
   * The loop goes on after the `i`-th reply: it was read and not ready, or
   * it was empty while an earlier response (necessarily not ready) is kept.
   * An empty first reply leaves no response object, and reading its flag
   * throws.
   */
  predicate Continues(rs: seq<Reply>, i: nat) {
    var v := VerdictOf(ReplyAt(rs, i));
    v == NotReady || (v == Undefined && i > 0)
  }

  /** How many generate requests the loop sends, if it is about to send its `i + 1`-th. */
  function Tries(rs: seq<Reply>, i: nat): (n: nat)
    requires i < MAX_TRIES
    ensures i < n <= MAX_TRIES
    decreases MAX_TRIES - i
  {
    if i + 1 < MAX_TRIES && Continues(rs, i) then Tries(rs, i + 1) else i + 1
  }

  /** `sendGenerateRequest`'s form: the copy and the lower-cased format. */
  function GenerateForm(copyId: string, format: string): map<string, string> {
    map["copy_id" := copyId, "format" := Lower(format)]
  }

  /** One round: the post, then a ten-second exact pause unless the reply was ready or threw. */
  function RoundEvents(r: Reply, url: string, form: map<string, string>): seq<Event> {
    [Request(POST, url, FormOf(form))]
    + (if VerdictOf(r) == Undefined || VerdictOf(r) == NotReady then [Wait(GENERATION_WAIT, false)] else [])
  }

  function Rounds(rs: seq<Reply>, url: string, form: map<string, string>, k: nat): seq<Event> {
    if k == 0 then [] else Rounds(rs, url, form, k - 1) + RoundEvents(ReplyAt(rs, k - 1), url, form)
  }

  /**
   * `generatePublicationFiles`, as a value: the loop's rounds, and the
   * answer, which is true exactly when the last reply read was ready. A
   * throw anywhere is caught and answers false.
   */
  function Generate(s: State, url: string, copyId: string, format: string): (r: Step<bool>)
    ensures r.out.Done?
  {
    var k := Tries(s.replies, 0);
    Step(Done(VerdictOf(ReplyAt(s.replies, k - 1)) == Ready),
         s.(replies := Drop(s.replies, k), trace := s.trace + Rounds(s.replies, url, GenerateForm(copyId, format), k)))
  }

  /** `generatePublicationFiles`: the do-while loop with its counter and its response object. */
  method GeneratePublicationFiles(s0: State, url: string, copyId: string, format: string) returns (ready: bool, s: State)
    ensures Step(Done(ready), s) == Generate(s0, url, copyId, format)
  {
    ghost var rs := s0.replies;
    var form := GenerateForm(copyId, format);
    var responseObject: Option<bool> := None;
    var count: nat := 0;
    s := s0;
    while true
      invariant count < MAX_TRIES
      invariant s == s0.(replies := Drop(rs, count), trace := s0.trace + Rounds(rs, url, form, count))
      invariant responseObject.None? <==> count == 0
      invariant responseObject.Some? ==> !responseObject.value
      invariant Tries(rs, count) == Tries(rs, 0)
      decreases MAX_TRIES - count
    {
      var thrown;
      thrown, responseObject, s := GenerateRound(s0, s, rs, url, form, count, responseObject);
      TriesAt(rs, count);
      if thrown {
        GenerateIs(s0, url, copyId, format, count + 1);
        return false, s;
      }
      count := count + 1;
      if responseObject.None? {
        // reading `ready` of no response object throws, and is caught
        GenerateIs(s0, url, copyId, format, count);
        return false, s;
      }
      if responseObject.value || count >= MAX_TRIES {
        GenerateIs(s0, url, copyId, format, count);
        return responseObject.value, s;
      }
    }
  }

  /**
   * One pass of the loop of `generatePublicationFiles`: the request, the
   * response object replaced when a body was decoded, and the pause unless
   * it is ready. `thrown` is a rejection or a body that is not JSON.
   */
  method GenerateRound(ghost s0: State, s: State, ghost rs: seq<Reply>, url: string, form: map<string, string>,
                       count: nat, responseObject: Option<bool>)
    returns (thrown: bool, next: Option<bool>, s': State)
    requires s == s0.(replies := Drop(rs, count), trace := s0.trace + Rounds(rs, url, form, count))
    requires responseObject.None? <==> count == 0
    requires responseObject.Some? ==> !responseObject.value
    ensures s' == s0.(replies := Drop(rs, count + 1), trace := s0.trace + Rounds(rs, url, form, count + 1))
    ensures thrown <==> VerdictOf(ReplyAt(rs, count)) == Throws
    ensures !thrown ==> (Continues(rs, count) <==> next.Some? && !next.value)
    ensures !thrown && next.Some? ==> (next.value <==> VerdictOf(ReplyAt(rs, count)) == Ready)
    ensures !thrown && next.None? ==> VerdictOf(ReplyAt(rs, count)) == Undefined
  {
    var a := Post(s, url, form);
    assert a.reply == ReplyAt(rs, count) && a.st.replies == Drop(rs, count + 1) by {
      ReplyAtDrop(rs, count, 0);
      DropOneMore(rs, count);
    }
    s' := a.st;
    next := responseObject;
    thrown := a.reply.TransportError? || a.reply.response.doc.Unparsable?;
    if thrown {
      return;
    }
    var doc := a.reply.response.doc;
    if doc.Decoded? {
      next := Some(ReadyFlag(doc.fields));
    }
    if doc.Missing? || !next.value {
      s' := Pause(s', GENERATION_WAIT, false);
    }
    assert s'.trace == s.trace + RoundEvents(ReplyAt(rs, count), url, form);
  }

  /** One more reply read: the loop goes on past it exactly when it lets the loop go on and tries remain. */
  lemma TriesAt(rs: seq<Reply>, i: nat)
    requires i < MAX_TRIES
    ensures i + 1 < MAX_TRIES && Continues(rs, i) ==> Tries(rs, i) == Tries(rs, i + 1)
    ensures !(i + 1 < MAX_TRIES && Continues(rs, i)) ==> Tries(rs, i) == i + 1
  {
  }

  /** `Generate` once the number of tries is known. */
  lemma GenerateIs(s: State, url: string, copyId: string, format: string, k: nat)
    requires Tries(s.replies, 0) == k
    ensures Generate(s, url, copyId, format) ==
      Step(Done(VerdictOf(ReplyAt(s.replies, k - 1)) == Ready),
           s.(replies := Drop(s.replies, k), trace := s.trace + Rounds(s.replies, url, GenerateForm(copyId, format), k)))
  {
  }

  /** Which replies the loop read: every one but the last let it go on, and the last stopped it. */
  lemma {:induction false} TriesValues(rs: seq<Reply>, i: nat)
    requires i < MAX_TRIES
    ensures var k := Tries(rs, i);
      (forall j :: i <= j < k - 1 ==> Continues(rs, j))
      && (k < MAX_TRIES ==> !Continues(rs, k - 1))
    decreases MAX_TRIES - i
  {
    if i + 1 < MAX_TRIES && Continues(rs, i) {
      TriesValues(rs, i + 1);
    }
  }

  /**
   * The answer is true exactly when some reply among the first ten is
   * ready and every reply before it let the loop go on; that reply is the
   * last one read.
   */
  lemma GenerateVerdict(s: State, url: string, copyId: string, format: string)
    ensures Generate(s, url, copyId, format).out.value <==>
      exists j :: 0 <= j < MAX_TRIES && VerdictOf(ReplyAt(s.replies, j)) == Ready
        && forall i :: 0 <= i < j ==> Continues(s.replies, i)
  {
    var rs := s.replies;
    var k := Tries(rs, 0);
    TriesValues(rs, 0);
    if VerdictOf(ReplyAt(rs, k - 1)) == Ready {
      assert forall i :: 0 <= i < k - 1 ==> Continues(rs, i);
    } else {
      forall j | 0 <= j < MAX_TRIES && VerdictOf(ReplyAt(rs, j)) == Ready
        ensures !forall i :: 0 <= i < j ==> Continues(rs, i)
      {
        assert k - 1 < j;
        assert !Continues(rs, k - 1);
      }
    }
  }

  lemma RoundRequests(r: Reply, url: string, form: map<string, string>)
    ensures Requests(RoundEvents(r, url, form)) == 1
  {
    var e := RoundEvents(r, url, form);
    if |e| == 2 {
      assert e == [Request(POST, url, FormOf(form)), Wait(GENERATION_WAIT, false)];
      assert e[..1] == [Request(POST, url, FormOf(form))];
      assert Requests(e[..1]) == 1;
      assert e[..1][..0] == [];
    } else {
      assert e[..0] == [];
    }
  }

  lemma {:induction false} RoundsRequests(rs: seq<Reply>, url: string, form: map<string, string>, k: nat)
    ensures Requests(Rounds(rs, url, form, k)) == k
  {
    if k > 0 {
      var before := Rounds(rs, url, form, k - 1);
      var last := RoundEvents(ReplyAt(rs, k - 1), url, form);
      RoundsRequests(rs, url, form, k - 1);
      RoundRequests(ReplyAt(rs, k - 1), url, form);
      RequestsStep(before, last, k);
      assert Rounds(rs, url, form, k) == before + last;
    }
  }

  lemma RequestsStep(before: seq<Event>, last: seq<Event>, k: nat)
    requires k > 0 && Requests(before) == k - 1 && Requests(last) == 1
    ensures Requests(before + last) == k
  {
    RequestsAppend(before, last);
  }

  /**
   * The loop sends between one and ten generate requests, each taking one
   * reply, and writes nothing.
   */
  lemma GenerateRequests(s: State, url: string, copyId: string, format: string)
    ensures var r := Generate(s, url, copyId, format);
      var k := Tries(s.replies, 0);
      1 <= k <= MAX_TRIES
      && Requests(r.st.trace) == Requests(s.trace) + k
      && r.st.replies == Drop(s.replies, k)
      && r.st.disk == s.disk
  {
    var k := Tries(s.replies, 0);
    var rounds := Rounds(s.replies, url, GenerateForm(copyId, format), k);
    RoundsRequests(s.replies, url, GenerateForm(copyId, format), k);
    RequestsAppend(s.trace, rounds);
  }

  /**
   * A loop that stops on a reply that was empty or not ready (the tenth,
   * or an empty first one) has waited ten seconds after it too.
   */
  lemma GiveUpWaits(s: State, url: string, copyId: string, format: string)
    requires var v := VerdictOf(ReplyAt(s.replies, Tries(s.replies, 0) - 1));
      v == Undefined || v == NotReady
    ensures var t := Generate(s, url, copyId, format).st.trace;
      |t| > 0 && t[|t| - 1] == Wait(GENERATION_WAIT, false)
  {
  }

  /** An empty first reply ends the loop at once, with one request, one pause and the answer false. */
  lemma EmptyFirstReply(s: State, url: string, copyId: string, format: string)
    requires VerdictOf(ReplyAt(s.replies, 0)) == Undefined
    ensures Generate(s, url, copyId, format) ==
      Step(Done(false), s.(replies := Drop(s.replies, 1),
                           trace := s.trace + [Request(POST, url, FormOf(GenerateForm(copyId, format))), Wait(GENERATION_WAIT, false)]))
  {
    assert Tries(s.replies, 0) == 1;
    var form := GenerateForm(copyId, format);
    assert Rounds(s.replies, url, form, 1) == [] + RoundEvents(ReplyAt(s.replies, 0), url, form);
  }

  /** The `success` flag is only logged: it never changes how a reply reads. */
  lemma SuccessIgnored(resp: Response, fields: map<string, string>, records: seq<map<string, string>>, values: seq<string>, flag: string)
    ensures VerdictOf(Answer(resp.(doc := Decoded(fields["success" := flag], records, values))))
         == VerdictOf(Answer(resp.(doc := Decoded(fields, records, values))))
  {
    assert ("ready" in fields["success" := flag]) <==> ("ready" in fields);
  }

  // ---------------------------------------------------------------- download

  const DOWNLOAD_KEYS: seq<string> := ["_copyId_", "_fileFormat_"]

  /** The download address: the template with the copy and the lower-cased format filled in. */
  function DownloadLink(template: string, copyId: string, format: string): string {
    Substitute(template, DOWNLOAD_KEYS, map["_copyId_" := copyId, "_fileFormat_" := Lower(format)])
  }

  lemma DownloadKeysAreTokens()
    ensures TokenKeys(DOWNLOAD_KEYS)
  {
    DifferAt(DOWNLOAD_KEYS[0], DOWNLOAD_KEYS[1], 1);
  }

  /**
   * Every `_copyId_` and `_fileFormat_` of the template is replaced in one
   * pass by the copy and the lower-cased format; the rest is kept.
   */
  lemma DownloadLinkFills(ps: seq<Piece>, copyId: string, format: string)
    requires WellFormed(ps, DOWNLOAD_KEYS)
    ensures DownloadLink(Template(ps), copyId, format)
      == Filled(ps, map["_copyId_" := copyId, "_fileFormat_" := Lower(format)])
  {
    DownloadKeysAreTokens();
    SubstituteFillsTemplate(ps, DOWNLOAD_KEYS, map["_copyId_" := copyId, "_fileFormat_" := Lower(format)]);
  }

  /** One format of a book: skipped when present, else generated, and downloaded only when ready. */
  function FormatStep(s: State, st: Settings, cfg: Config, bookName: string, dir: string, copyId: string, format: string): (r: Step<()>)
    ensures !r.out.Stalled?
  {
    var fileName := st.pathName(bookName + "." + format);
    if Files.ElementExists(s.disk, dir, fileName) then Step(Done(()), s)
    else
      var g := Generate(s, cfg.generateProductService, copyId, format);
      if g.out.value then DownloadFile(g.st, DownloadLink(cfg.downloadUrl, copyId, format), dir, fileName, true)
      else Step(Done(()), g.st)
  }

  /** The formats in order; a failed download rejects and ends the book. */
  function FormatsStep(s: State, st: Settings, cfg: Config, bookName: string, dir: string, copyId: string, formats: seq<string>): Step<()>
    decreases |formats|
  {
    if formats == [] then Step(Done(()), s)
    else
      var r := FormatStep(s, st, cfg, bookName, dir, copyId, formats[0]);
      if r.out.Done? then FormatsStep(r.st, st, cfg, bookName, dir, copyId, formats[1..]) else r
  }

  function BookName(data: BookData): string {
    data.title + " - " + data.authors
  }

  function BookDir(st: Settings, data: BookData): string {
    st.booksDir + "/" + st.pathName(BookName(data))
  }

  /** `downloadPublication`: the book's folder is made if missing, then its formats are processed. */
  function PublicationStep(s: State, st: Settings, cfg: Config, data: BookData): Step<()> {
    FormatsStep(EnsureDirectory(s, BookDir(st, data)), st, cfg, BookName(data), BookDir(st, data), data.meta.copyId, data.formats)
  }

  /** One format, as the statement sequence of the loop body. */
  method ProcessFormat(s: State, st: Settings, cfg: Config, bookName: string, dir: string, copyId: string, format: string)
    returns (r: Step<()>)
    ensures r == FormatStep(s, st, cfg, bookName, dir, copyId, format)
  {
    var fileName := st.pathName(bookName + "." + format);
    if Files.ElementExists(s.disk, dir, fileName) {
      return Step(Done(()), s);
    }
    var ready, after := GeneratePublicationFiles(s, cfg.generateProductService, copyId, format);
    if ready {
      r := DownloadFile(after, DownloadLink(cfg.downloadUrl, copyId, format), dir, fileName, true);
    } else {
      r := Step(Done(()), after);
    }
  }

  /** `downloadPublication`: the loop over the formats of one book. */
  method DownloadPublication(s: State, st: Settings, cfg: Config, data: BookData) returns (r: Step<()>)
    ensures r == PublicationStep(s, st, cfg, data)
  {
    var bookName := data.title + " - " + data.authors;
    var dir := st.booksDir + "/" + st.pathName(bookName);
    var formats := data.formats;
    r := Step(Done(()), EnsureDirectory(s, dir));
    var i := 0;
    while i < |formats| && r.out.Done?
      invariant 0 <= i <= |formats|
      invariant r.out.Done? ==> PublicationStep(s, st, cfg, data) == FormatsStep(r.st, st, cfg, bookName, dir, data.meta.copyId, formats[i..])
      invariant !r.out.Done? ==> PublicationStep(s, st, cfg, data) == r
    {
      assert formats[i..][0] == formats[i] && formats[i..][1..] == formats[i + 1..];
      r := ProcessFormat(r.st, st, cfg, bookName, dir, data.meta.copyId, formats[i]);
      i := i + 1;
    }
    if r.out.Done? {
      assert formats[i..] == [];
      assert r.out.value == ();
    }
  }

  /** The books of one page in order; a book whose download rejects ends the page. */
  function BooksStep(s: State, st: Settings, cfg: Config, books: seq<Book>): Step<()>
    decreases |books|
  {
    if books == [] then Step(Done(()), s)
    else
      var r := PublicationStep(s, st, cfg, GetPublicationsData(books[0]));
      if r.out.Done? then BooksStep(r.st, st, cfg, books[1..]) else r
  }

  /** `downloadPublicationsFromPage`: the loop over the books of one page. */
  method DownloadPublicationsFromPage(s: State, st: Settings, cfg: Config, books: seq<Book>) returns (r: Step<()>)
    ensures r == BooksStep(s, st, cfg, books)
  {
    r := Step(Done(()), s);
    var i := 0;
    while i < |books| && r.out.Done?
      invariant 0 <= i <= |books|
      invariant r.out.Done? ==> BooksStep(s, st, cfg, books) == BooksStep(r.st, st, cfg, books[i..])
      invariant !r.out.Done? ==> BooksStep(s, st, cfg, books) == r
    {
      assert books[i..][0] == books[i] && books[i..][1..] == books[i + 1..];
      r := DownloadPublication(r.st, st, cfg, GetPublicationsData(books[i]));
      i := i + 1;
    }
    if r.out.Done? {
      assert books[i..] == [];
      assert r.out.value == ();
    }
  }

  /** One later page: fetched after a jittered second, then its books. */
  function PageStep(s: State, st: Settings, cfg: Config, scrape: string -> Shelf, url: string): Step<()> {
    var p := GetPageBody(s, url, ONE_SECOND, false);
    match p.out
    case Done(resp) => BooksStep(p.st, st, cfg, scrape(resp.body).books)
    case Failed(e) => Step(Failed(e), p.st)
    case Stalled => Step(Stalled, p.st)
  }

  function PagesStep(s: State, st: Settings, cfg: Config, scrape: string -> Shelf, urls: seq<string>): Step<()>
    decreases |urls|
  {
    if urls == [] then Step(Done(()), s)
    else
      var r := PageStep(s, st, cfg, scrape, urls[0]);
      if r.out.Done? then PagesStep(r.st, st, cfg, scrape, urls[1..]) else r
  }

  /**
   * `getProducts`: the bookshelf page's books, then every page link of the
   * bookshelf page once, in order. `scrape` stands for the selectors that
   * read a page body.
   */
  function Products(s: State, st: Settings, acct: Account, cfg: Config, scrape: string -> Shelf, body: string): Step<()> {
    var shelf := scrape(body);
    var r := BooksStep(s, st, cfg, shelf.books);
    if r.out.Done? then PagesStep(r.st, st, cfg, scrape, Dedup(Map(shelf.pageHrefs, PageUrl(acct.mainPageUrl)))) else r
  }

  method ProcessPage(s: State, st: Settings, cfg: Config, scrape: string -> Shelf, url: string) returns (r: Step<()>)
    ensures r == PageStep(s, st, cfg, scrape, url)
  {
    var page := GetPageBody(s, url, ONE_SECOND, false);
    if page.out.Failed? {
      return Step(Failed(page.out.reason), page.st);
    } else if page.out.Stalled? {
      return Step(Stalled, page.st);
    }
    r := DownloadPublicationsFromPage(page.st, st, cfg, scrape(page.out.value.body).books);
  }

  /** The page loop of `getProducts`, stopping at the first page that rejects. */
  method ProcessPages(s: State, st: Settings, cfg: Config, scrape: string -> Shelf, urls: seq<string>) returns (r: Step<()>)
    ensures r == PagesStep(s, st, cfg, scrape, urls)
  {
    r := Step(Done(()), s);
    var i := 0;
    while i < |urls| && r.out.Done?
      invariant 0 <= i <= |urls|
      invariant r.out.Done? ==> PagesStep(s, st, cfg, scrape, urls) == PagesStep(r.st, st, cfg, scrape, urls[i..])
      invariant !r.out.Done? ==> PagesStep(s, st, cfg, scrape, urls) == r
    {
      assert urls[i..][0] == urls[i] && urls[i..][1..] == urls[i + 1..];
      r := ProcessPage(r.st, st, cfg, scrape, urls[i]);
      i := i + 1;
    }
    if r.out.Done? {
      assert urls[i..] == [];
      assert r.out.value == ();
    }
  }

  /** `getProducts`: the bookshelf page, then its page links in order. */
  method GetProducts(s0: State, st: Settings, acct: Account, cfg: Config, scrape: string -> Shelf, body: string)
    returns (r: Step<()>)
    ensures r == Products(s0, st, acct, cfg, scrape, body)
  {
    var shelf := scrape(body);
    var pageUrls := CollectDistinct(shelf.pageHrefs, PageUrl(acct.mainPageUrl));
    r := DownloadPublicationsFromPage(s0, st, cfg, shelf.books);
    if r.out.Done? {
      r := ProcessPages(r.st, st, cfg, scrape, pageUrls);
    }
  }

  /** The whole run: the base flow with this adapter's marker, login and product walk. */
  function Run(s: State, st: Settings, acct: Account, cfg: Config, scrape: string -> Shelf): Step<()> {
    GetBooks(s, st.cookiesDir, acct,
             s' => CheckIfUserIsLoggedIn(s', acct, NOT_LOGGED_IN_MARKER),
             s' => LogIn(s', acct),
             (s', body) => Products(s', st, acct, cfg, scrape, body))
  }

  // ---------------------------------------------------------------- properties

  /** A format whose file is already present is skipped: no request, no pause, no write. */
  lemma PresentFormatSkipped(s: State, st: Settings, cfg: Config, bookName: string, dir: string, copyId: string, format: string)
    requires Files.ElementExists(s.disk, dir, st.pathName(bookName + "." + format))
    ensures FormatStep(s, st, cfg, bookName, dir, copyId, format) == Step(Done(()), s)
  {
  }

  /**
   * A format's file is written only when it was absent and the generation
   * answered true, and then it is fetched from the filled-in template.
   */
  lemma WritesOnlyWhenGenerated(s: State, st: Settings, cfg: Config, bookName: string, dir: string, copyId: string, format: string)
    requires FormatStep(s, st, cfg, bookName, dir, copyId, format).st.disk != s.disk
    ensures var g := Generate(s, cfg.generateProductService, copyId, format);
      !Files.ElementExists(s.disk, dir, st.pathName(bookName + "." + format))
      && g.out.value
      && FormatStep(s, st, cfg, bookName, dir, copyId, format)
         == DownloadFile(g.st, DownloadLink(cfg.downloadUrl, copyId, format), dir, st.pathName(bookName + "." + format), true)
  {
    var g := Generate(s, cfg.generateProductService, copyId, format);
    assert g.st.disk == s.disk;
  }
}
