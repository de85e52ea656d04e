/**
 * The InformIT adapter: a login whose requests have no failure handling, a
 * bookshelf whose entries carry ready download links or `regen(...)` calls
 * that ask the server to generate a file first, and the poller that waits
 * for that generation.
 */
module InformIT {
  import opened Wrappers
  import opened Text
  import Files
  import opened Env
  import opened Bookstore

  const NOT_LOGGED_IN_MARKER := "login.aspx"
  const MAX_RETRY: nat := 60

  /** The store entry's addresses this adapter reads besides the common ones. */
  datatype Config = Config(mainServiceUrl: string, downloadServiceUrl: string, generateProductServiceUrl: string)

  /** One entry of the bookshelf: the `dt` title and the hrefs of its `dd.productState a` links. */
  datatype ShelfEntry = ShelfEntry(title: string, hrefs: seq<string>)

  /** A link of an entry: downloadable now, or to be generated first. */
  datatype RefreshLink = Ready(downloadLink: string, fileType: string) | Regen(isbn13: string, nid: string, fileType: string)

  /** The result of a generation: ready, or not with the reason. */
  datatype Generation = Generation(ready: bool, error: Option<string>)

  /** A poll's outcome, its final state and how many status requests it sent. */
  datatype Polled = Polled(out: Outcome<Generation>, st: State, attempts: nat)

  /** Where the poll loop stops: the last value read, the state, and how many requests it sent. */
  datatype Tally = Tally(last: Outcome<string>, st: State, attempts: nat)

  // ---------------------------------------------------------------- login

  /**
   * InformIT's own `checkIfUserIsLoggedIn`: the base verdict, but a failed
   * request is never handled, so the check never settles.
   */
  function CheckIfUserIsLoggedIn(s: State, acct: Account): (r: Step<ShelfCheck>)
    ensures !r.out.Failed?
    ensures r.out.Stalled? <==> ReplyAt(s.replies, 0).TransportError?
    ensures r.out.Done? ==> r.out.value == ShelfCheck(
      MarkerAbsent(ReplyAt(s.replies, 0).response.finalUrl, NOT_LOGGED_IN_MARKER), ReplyAt(s.replies, 0).response.body)
  {
    var a := Get(s, acct.bookshelfUrl);
    match a.reply
    case TransportError(_, _, _) => Step(Stalled, a.st)
    case Answer(resp) => Step(Done(ShelfCheck(MarkerAbsent(resp.finalUrl, NOT_LOGGED_IN_MARKER), resp.body)), a.st)
  }

  function LoginForm(acct: Account): map<string, string> {
    map["email_address" := acct.login, "password" := acct.password]
  }

  /**
   * `logIn`: fetch the form and pause a jittered second, post the
   * credentials, check again. None of the three requests has a failure
   * handler: any transport error leaves the login pending forever. Otherwise
   * it resolves with the bookshelf body exactly when the final URL lacks the
   * marker, and rejects naming the login when it does not.
   */
  function LogIn(s: State, acct: Account): (r: Step<string>)
    ensures r.out.Stalled? <==> exists i :: 0 <= i < 3 && ReplyAt(s.replies, i).TransportError?
    ensures r.out.Done? <==> ((forall i :: 0 <= i < 3 ==> ReplyAt(s.replies, i).Answer?)
      && MarkerAbsent(ReplyAt(s.replies, 2).response.finalUrl, NOT_LOGGED_IN_MARKER))
    ensures r.out.Done? ==> r.out.value == ReplyAt(s.replies, 2).response.body
    ensures r.out.Failed? ==> r.out.reason == "Could not log in as " + acct.login
    ensures r.st.disk == s.disk
  {
    var v := Get(s, acct.loginFormUrl);
    ReplyAtDrop(s.replies, 1, 0);
    ReplyAtDrop(s.replies, 1, 1);
    match v.reply
    case TransportError(_, _, _) => Step(Stalled, v.st)
    case Answer(_) =>
      var p := Post(Pause(v.st, ONE_SECOND, true), acct.loginServiceUrl, LoginForm(acct));
      ReplyAtDrop(v.st.replies, 1, 0);
      match p.reply
      case TransportError(_, _, _) => Step(Stalled, p.st)
      case Answer(_) =>
        var c := CheckIfUserIsLoggedIn(p.st, acct);
        match c.out
        case Done(check) =>
          if check.isLoggedIn then Step(Done(check.body), c.st)
          else Step(Failed("Could not log in as " + acct.login), c.st)
        case Failed(e) => Step(Failed(e), c.st)
        case Stalled => Step(Stalled, c.st)
  }

  // ---------------------------------------------------------------- links

  const REGEN_NOISE: seq<string> := ["javascript:regen(", ")", "'", "\""]

  datatype RegenArgs = RegenArgs(isbn: string, nid: string, fileType: string)

  /**
   * `parseRegenCallParameters`: strip the call syntax and the quotes, split
   * on ',', and take the trimmed fields 1, 2 and 4; a call with fewer than
   * five fields reads past the end and throws.
   */
  function ParseRegen(call: string): (r: Option<RegenArgs>)
    ensures r.Some? <==> |SplitOn(RemoveAll(call, REGEN_NOISE), ",")| >= 5
  {
    var parts := SplitOn(RemoveAll(call, REGEN_NOISE), ",");
    if |parts| < 5 then None else Some(RegenArgs(Trim(parts[1]), Trim(parts[2]), Trim(parts[4])))
  }

  /** A field of a regen call that holds none of the characters the parser strips or splits on. */
  predicate PlainField(f: string) {
    forall c :: c in f ==> c !in "j()'\","
  }

  /**
   * Parsing undoes writing the call: `javascript:regen(f0,f1,...)` with plain
   * fields yields the trimmed second, third and fifth fields.
   */
  lemma ParseRegenRoundTrip(fields: seq<string>)
    requires |fields| >= 5
    requires forall f :: f in fields ==> PlainField(f)
    ensures ParseRegen("javascript:regen(" + Join(fields, ",") + ")")
      == Some(RegenArgs(Trim(fields[1]), Trim(fields[2]), Trim(fields[4])))
  {
    var j := Join(fields, ",");
    JoinPlain(fields);
    StripCall(j);
    forall f | f in fields ensures ',' !in f {
      assert PlainField(f);
    }
    SplitJoin(fields, ",");
  }

  /** Stripping the call syntax from `javascript:regen(j)` leaves `j` when `j` holds none of it. */
  lemma StripCall(j: string)
    requires forall c :: c in j ==> c !in "j()'\""
    ensures RemoveAll("javascript:regen(" + j + ")", REGEN_NOISE) == j
  {
    assert "javascript:regen(" + j + ")" == REGEN_NOISE[0] + (j + ")");
    RemoveAllLead(0, j + ")", REGEN_NOISE);
    forall p | p in REGEN_NOISE ensures p[0] !in j {
    }
    RemoveAllPlain(j, ")", REGEN_NOISE);
    assert ")" == REGEN_NOISE[1] + "";
    RemoveAllLead(1, "", REGEN_NOISE);
    assert j + "" == j;
  }

  lemma {:induction false} JoinPlain(fields: seq<string>)
    requires forall f :: f in fields ==> PlainField(f)
    ensures forall c :: c in Join(fields, ",") ==> c !in "j()'\""
  {
    if |fields| > 1 {
      assert fields[0] in fields;
      forall f | f in fields[1..] ensures PlainField(f) { assert f in fields; }
      JoinPlain(fields[1..]);
    } else if |fields| == 1 {
      assert fields[0] in fields;
    }
  }

  /**
   * The file type of a ready link: the letters of the first `/<letters>.aspx`
   * in the href (the `[a-z]+` run of `/\/[a-z]+\.aspx/`), or none, on which
   * the adapter throws.
   */
  function AspxName(href: string): (r: Option<string>)
    ensures r.Some? ==> (|r.value| > 0 && (forall i :: 0 <= i < |r.value| ==> IsLowerLetter(r.value[i]))
      && Contains(href, "/" + r.value + ".aspx"))
  {
    if href == [] then None
    else
      var n := LowerRun(href[1..]);
      if href[0] == '/' && n > 0 && StartsWith(href[1 + n..], ".aspx") then
        var name := href[1..1 + n];
        assert href[..1 + n + 5] == "/" + name + ".aspx";
        assert OccursAt(href, "/" + name + ".aspx", 0);
        ContainsIff(href, "/" + name + ".aspx");
        Some(name)
      else
        var r := AspxName(href[1..]);
        if r.Some? then
          ContainsIff(href[1..], "/" + r.value + ".aspx");
          var j :| OccursAt(href[1..], "/" + r.value + ".aspx", j);
          OccursShift(href, "/" + r.value + ".aspx");
          ContainsIff(href, "/" + r.value + ".aspx");
          r
        else r
  }

  /** The name following the last '/' is picked out of a plain `.aspx` path. */
  lemma AspxNameOfPath(name: string, query: string)
    requires |name| > 0 && forall i :: 0 <= i < |name| ==> IsLowerLetter(name[i])
    ensures AspxName("/" + name + ".aspx" + query) == Some(name)
  {
    var tail := ".aspx" + query;
    var href := "/" + name + ".aspx" + query;
    assert href == "/" + (name + tail);
    assert href[1..] == name + tail;
    LowerRunOf(name, tail);
    assert href[1 + |name|..] == tail;
    assert tail[..5] == ".aspx";
    assert href[1..1 + |name|] == name;
  }

  lemma {:induction false} LowerRunOf(name: string, rest: string)
    requires forall i :: 0 <= i < |name| ==> IsLowerLetter(name[i])
    requires rest == [] || !IsLowerLetter(rest[0])
    ensures LowerRun(name + rest) == |name|
  {
    if name != [] {
      assert (name + rest)[1..] == name[1..] + rest;
      LowerRunOf(name[1..], rest);
    } else {
      assert name + rest == rest;
    }
  }

  /**
   * One link of `getRefreshLinks`: a href holding "javascript:regen" is a
   * generation request; any other is a ready link whose address is the main
   * service URL glued to the href with repeated slashes collapsed.
   */
  function ParseLink(mainServiceUrl: string, href: string): (r: Option<RefreshLink>)
    ensures r.Some? && r.value.Ready? ==> (!Contains(href, "javascript:regen")
      && r.value.downloadLink == CollapseSlashes(mainServiceUrl + href)
      && AspxName(href) == Some(r.value.fileType))
    ensures r.Some? && r.value.Regen? ==> (Contains(href, "javascript:regen")
      && ParseRegen(href) == Some(RegenArgs(r.value.isbn13, r.value.nid, r.value.fileType)))
  {
    if Contains(href, "javascript:regen") then
      match ParseRegen(href)
      case None => None
      case Some(a) => Some(Regen(a.isbn, a.nid, a.fileType))
    else
      match AspxName(href)
      case None => None
      case Some(ft) => Some(Ready(CollapseSlashes(mainServiceUrl + href), ft))
  }

  /**
   * `getRefreshLinks`: one link per href, in order. The `indexOf` test on a
   * freshly built object never finds it, so duplicates are all kept. A href
   * that cannot be parsed throws, and then no link of the entry is returned.
   */
  method GetRefreshLinks(mainServiceUrl: string, hrefs: seq<string>) returns (r: Option<seq<RefreshLink>>)
    ensures r.Some? <==> forall i :: 0 <= i < |hrefs| ==> ParseLink(mainServiceUrl, hrefs[i]).Some?
    ensures r.Some? ==> (|r.value| == |hrefs|
      && forall i :: 0 <= i < |hrefs| ==> Some(r.value[i]) == ParseLink(mainServiceUrl, hrefs[i]))
    ensures r == RefreshLinks(mainServiceUrl, hrefs)
  {
    r := ParseEach(hrefs, href => ParseLink(mainServiceUrl, href));
    RefreshLinksValues(mainServiceUrl, hrefs);
    if r.Some? {
      assert r.value == RefreshLinks(mainServiceUrl, hrefs).value;
    }
  }

  /** The loop of `getRefreshLinks`, for any parser: it stops at the first href that does not parse. */
  method ParseEach<T>(hrefs: seq<string>, parse: string -> Option<T>) returns (r: Option<seq<T>>)
    ensures r.Some? <==> forall i :: 0 <= i < |hrefs| ==> parse(hrefs[i]).Some?
    ensures r.Some? ==> (|r.value| == |hrefs|
      && forall i :: 0 <= i < |hrefs| ==> Some(r.value[i]) == parse(hrefs[i]))
  {
    var result: seq<T> := [];
    var i := 0;
    while i < |hrefs|
      invariant 0 <= i <= |hrefs|
      invariant |result| == i
      invariant forall k :: 0 <= k < i ==> Some(result[k]) == parse(hrefs[k])
    {
      var link := parse(hrefs[i]);
      if link.None? {
        return None;
      }
      result := result + [link.value];
      i := i + 1;
    }
    return Some(result);
  }



  /** The same links as a value, for the specification of `getProducts`. */
  function RefreshLinks(mainServiceUrl: string, hrefs: seq<string>): Option<seq<RefreshLink>> {
    if forall i :: 0 <= i < |hrefs| ==> ParseLink(mainServiceUrl, hrefs[i]).Some? then
      Some(seq(|hrefs|, i requires 0 <= i < |hrefs| => ParseLink(mainServiceUrl, hrefs[i]).value))
    else None
  }

  /** All links parse exactly when there is a list, and then it holds them in order. */
  lemma RefreshLinksValues(mainServiceUrl: string, hrefs: seq<string>)
    ensures var r := RefreshLinks(mainServiceUrl, hrefs);
      (r.Some? <==> forall i :: 0 <= i < |hrefs| ==> ParseLink(mainServiceUrl, hrefs[i]).Some?)
      && (r.Some? ==>
            |r.value| == |hrefs|
            && forall i :: 0 <= i < |hrefs| ==> Some(r.value[i]) == ParseLink(mainServiceUrl, hrefs[i]))
  {
  }

  const LINK_KEYS: seq<string> := ["_fileFormat_", "_isbn_", "_nid_"]

  /** `prepareDownloadLink`: the download address template with its placeholders filled in. */
  function PrepareDownloadLink(cfg: Config, isbn13: string, fileFormat: string, nid: string): string {
    Substitute(cfg.downloadServiceUrl, LINK_KEYS, map["_fileFormat_" := fileFormat, "_isbn_" := isbn13, "_nid_" := nid])
  }

  lemma LinkKeysAreTokens()
    ensures TokenKeys(LINK_KEYS)
  {
    forall i, j | 0 <= i < |LINK_KEYS| && 0 <= j < |LINK_KEYS| && i != j
      ensures !PrefixCI(LINK_KEYS[i], LINK_KEYS[j])
    {
      DifferAt(LINK_KEYS[i], LINK_KEYS[j], 1);
    }
  }

  /**
   * Every `_fileFormat_`, `_isbn_` and `_nid_` of a template is replaced by
   * its value in one pass: the literal text is kept, and a value that itself
   * spells a placeholder stays as it is.
   */
  lemma PrepareDownloadLinkFills(cfg: Config, ps: seq<Piece>, isbn13: string, fileFormat: string, nid: string)
    requires cfg.downloadServiceUrl == Template(ps)
    requires WellFormed(ps, LINK_KEYS)
    ensures PrepareDownloadLink(cfg, isbn13, fileFormat, nid)
      == Filled(ps, map["_fileFormat_" := fileFormat, "_isbn_" := isbn13, "_nid_" := nid])
  {
    LinkKeysAreTokens();
    SubstituteFillsTemplate(ps, LINK_KEYS, map["_fileFormat_" := fileFormat, "_isbn_" := isbn13, "_nid_" := nid]);
  }

  /**
   * The pattern ignores case but the values are looked up by the text as
   * written, so a placeholder spelled in other case turns into "undefined".
   */
  lemma PrepareDownloadLinkOtherCase(cfg: Config, isbn13: string, fileFormat: string, nid: string)
    requires cfg.downloadServiceUrl == "_ISBN_"
    ensures PrepareDownloadLink(cfg, isbn13, fileFormat, nid) == "undefined"
  {
    var t := "_ISBN_";
    assert t[..6] == t;
    forall i | 0 <= i < 6 ensures Lower(t)[i] == Lower("_isbn_")[i] { }
    assert Lower(t) == Lower("_isbn_");
    assert !MatchesCI(t, LINK_KEYS[0]);
    assert MatchesCI(t, LINK_KEYS[1]);
    assert FirstMatchCI(t, LINK_KEYS, 0) == Some(1);
    assert t[6..] == "";
    assert t !in map["_fileFormat_" := fileFormat, "_isbn_" := isbn13, "_nid_" := nid];
  }

  // ---------------------------------------------------------------- generation

  function GenerateForm(isbn: string, nid: string, fileType: string): map<string, string> {
    map["isbn13" := isbn, "nid" := nid, "format" := fileType]
  }

  /**
   * A status reply as the poller reads it: `GenerationCompleted`, after the
   * log line has read `RequestSuccess` too, so a reply lacking either throws.
   */
  function StatusValue(r: Reply): Outcome<string> {
    match Read(r, "RequestSuccess")
    case Done(_) => Read(r, "GenerationCompleted")
    case Failed(e) => Failed(e)
    case Stalled => Stalled
  }

  /**
   * The verdict once polling stops. The guard `counter <= MAX_RETRY` always
   * holds, so only the last value decides, and any value but "True" reports
   * the give-up message, also when it stopped the loop early.
   */
  function Conclude(value: Outcome<string>, format: string): (r: Outcome<Generation>)
    ensures (r.Done? && r.value.ready) <==> value == Done("True")
    ensures r.Done? <==> value.Done?
    ensures r.Done? && !r.value.ready ==> r.value.error.Some?
  {
    match value
    case Done(v) =>
      if v == "True" then Done(Generation(true, None))
      else Done(Generation(false, Some("Gave up generating " + format + " file after 60 requests")))
    case Failed(e) => Failed(e)
    case Stalled => Stalled
  }

  /**
   * How many status requests the loop has sent when it stops, if it has
   * sent `counter` so far, the last of which read `value`, and `rs` holds
   * the replies still to come: it goes on while the value is "False" and
   * fewer than 60 requests have gone out.
   */
  function Attempts(rs: seq<Reply>, value: Outcome<string>, counter: nat): (n: nat)
    requires 1 <= counter <= MAX_RETRY
    ensures counter <= n <= MAX_RETRY
    decreases MAX_RETRY - counter
  {
    if value == Done("False") && counter < MAX_RETRY then
      Attempts(Drop(rs, 1), StatusValue(ReplyAt(rs, 0)), counter + 1)
    else counter
  }

  /** The value read `i` requests after the one that read `value`, from the replies that followed it. */
  function ValueAfter(rs: seq<Reply>, value: Outcome<string>, i: nat): Outcome<string> {
    if i == 0 then value else StatusValue(ReplyAt(rs, i - 1))
  }

  /** The requests of `n` further polls, each after an exact five-second pause. */
  function LaterPolls(url: string, form: map<string, string>, n: nat): seq<Event> {
    if n == 0 then [] else LaterPolls(url, form, n - 1) + [Wait(5 * ONE_SECOND, false), Request(POST, url, FormOf(form))]
  }

  /**
   * Where the poll loop ends up from `counter` requests and the last value
   * read: `k` more polls, each a pause and a request taking the next reply,
   * and the value read by the last of them.
   */
  function Continue(st: State, value: Outcome<string>, counter: nat, url: string, form: map<string, string>): Tally
    requires 1 <= counter <= MAX_RETRY
  {
    var n := Attempts(st.replies, value, counter);
    var k := n - counter;
    Tally(ValueAfter(st.replies, value, k),
          st.(replies := Drop(st.replies, k), trace := st.trace + LaterPolls(url, form, k)), n)
  }

  /** The whole poll: the first request after an exact pause of 0 ms. */
  function Poll(s: State, url: string, form: map<string, string>, format: string): Polled {
    var a := Post(Pause(s, 0, false), url, form);
    var t := Continue(a.st, StatusValue(a.reply), 1, url, form);
    Polled(Conclude(t.last, format), t.st, t.attempts)
  }

  /** One more round of the loop body (pause, post, read) leads to the same end. */
  lemma ContinueStep(st: State, value: Outcome<string>, counter: nat, url: string, form: map<string, string>)
    requires 1 <= counter < MAX_RETRY && value == Done("False")
    ensures var a := Post(Pause(st, 5 * ONE_SECOND, false), url, form);
      Continue(a.st, StatusValue(a.reply), counter + 1, url, form) == Continue(st, value, counter, url, form)
  {
    var a := Post(Pause(st, 5 * ONE_SECOND, false), url, form);
    var v := StatusValue(a.reply);
    var rs := st.replies;
    assert a.st.replies == Drop(rs, 1) && v == StatusValue(ReplyAt(rs, 0));
    var n := Attempts(rs, value, counter);
    assert Attempts(a.st.replies, v, counter + 1) == n;
    var k := n - counter;
    ValueAfterShift(rs, value);
    assert ValueAfter(a.st.replies, v, k - 1) == ValueAfter(rs, value, k);
    DropDrop(rs, k - 1);
    var poll := [Wait(5 * ONE_SECOND, false), Request(POST, url, FormOf(form))];
    assert a.st.trace == st.trace + poll;
    LaterPollsAfter(st.trace, url, form, k - 1);
    assert Continue(a.st, v, counter + 1, url, form)
        == Tally(ValueAfter(rs, value, k), st.(replies := Drop(rs, k), trace := st.trace + LaterPolls(url, form, k)), n);
  }

  /** When the loop condition fails, the loop is over. */
  lemma ContinueStop(st: State, value: Outcome<string>, counter: nat, url: string, form: map<string, string>)
    requires 1 <= counter <= MAX_RETRY && !(value == Done("False") && counter < MAX_RETRY)
    ensures Continue(st, value, counter, url, form) == Tally(value, st, counter)
  {
    DropZero(st.replies);
    assert st.trace + [] == st.trace;
  }

  /** `waitUntilGenerated`: the do-while loop with its counter and its delay. */
  method WaitUntilGenerated(s0: State, url: string, form: map<string, string>, format: string)
    returns (out: Outcome<Generation>, s: State, counter: nat)
    ensures Polled(out, s, counter) == Poll(s0, url, form, format)
  {
    var delay: nat := 0;
    var value: Outcome<string>;
    // first pass of the do-while body
    value, s := PostAfter(s0, delay, url, form);
    value, s, counter := PollRest(s, value, url, form);
    out := Conclude(value, format);
  }

  /** The later passes of the do-while loop, once the first status has been read. */
  method PollRest(s0: State, value0: Outcome<string>, url: string, form: map<string, string>)
    returns (value: Outcome<string>, s: State, counter: nat)
    ensures Tally(value, s, counter) == Continue(s0, value0, 1, url, form)
  {
    var delay: nat := 5 * ONE_SECOND;
    value, s, counter := value0, s0, 1;
    while value == Done("False") && counter < MAX_RETRY
      invariant 1 <= counter <= MAX_RETRY
      invariant delay == 5 * ONE_SECOND
      invariant Continue(s, value, counter, url, form) == Continue(s0, value0, 1, url, form)
      decreases MAX_RETRY - counter
    {
      value, s := PostAgain(s, value, counter, delay, url, form);
      delay := 5 * ONE_SECOND;
      counter := counter + 1;
    }
    ContinueStop(s, value, counter, url, form);
  }


  /** A later pass of the do-while body: the pause, the post and the read lead to the same end. */
  method PostAgain(s: State, value: Outcome<string>, counter: nat, delay: nat, url: string, form: map<string, string>)
    returns (next: Outcome<string>, t: State)
    requires 1 <= counter < MAX_RETRY && value == Done("False") && delay == 5 * ONE_SECOND
    ensures Continue(t, next, counter + 1, url, form) == Continue(s, value, counter, url, form)
  {
    ContinueStep(s, value, counter, url, form);
    next, t := PostAfter(s, delay, url, form);
  }

  /** One pass of the do-while body: the pause, the status post and the read of its answer. */
  method PostAfter(s: State, delay: nat, url: string, form: map<string, string>) returns (value: Outcome<string>, t: State)
    ensures var a := Post(Pause(s, delay, false), url, form);
      value == StatusValue(a.reply) && t == a.st
  {
    t := Pause(s, delay, false);
    var a := Post(t, url, form);
    t := a.st;
    value := StatusValue(a.reply);
  }

  /** Which values the loop read: "False" on every request but the last, which stopped it. */
  lemma {:induction false} AttemptsValues(rs: seq<Reply>, value: Outcome<string>, counter: nat)
    requires 1 <= counter <= MAX_RETRY
    ensures var k := Attempts(rs, value, counter) - counter;
      (forall i :: 0 <= i < k ==> ValueAfter(rs, value, i) == Done("False"))
      && (counter + k < MAX_RETRY ==> ValueAfter(rs, value, k) != Done("False"))
    decreases MAX_RETRY - counter
  {
    if value == Done("False") && counter < MAX_RETRY {
      var v := StatusValue(ReplyAt(rs, 0));
      AttemptsValues(Drop(rs, 1), v, counter + 1);
      var k := Attempts(rs, value, counter) - counter;
      ValueAfterShift(rs, value);
      forall i | 0 <= i < k ensures ValueAfter(rs, value, i) == Done("False") {
        if i > 0 {
          assert ValueAfter(Drop(rs, 1), v, i - 1) == Done("False");
        }
      }
    }
  }

  /** After one more request, the values read so far shift by one place. */
  lemma ValueAfterShift(rs: seq<Reply>, value: Outcome<string>)
    ensures forall i: nat :: ValueAfter(Drop(rs, 1), StatusValue(ReplyAt(rs, 0)), i) == ValueAfter(rs, value, i + 1)
  {
    forall i: nat ensures ValueAfter(Drop(rs, 1), StatusValue(ReplyAt(rs, 0)), i) == ValueAfter(rs, value, i + 1) {
      if i > 0 {
        ReplyAtDrop(rs, 1, i - 1);
      }
    }
  }

  lemma {:induction false} LaterPollsCons(url: string, form: map<string, string>, n: nat)
    ensures [Wait(5 * ONE_SECOND, false), Request(POST, url, FormOf(form))] + LaterPolls(url, form, n) == LaterPolls(url, form, n + 1)
  {
    if n > 0 {
      LaterPollsCons(url, form, n - 1);
    }
  }

  lemma LaterPollsAfter(tr: seq<Event>, url: string, form: map<string, string>, n: nat)
    ensures tr + [Wait(5 * ONE_SECOND, false), Request(POST, url, FormOf(form))] + LaterPolls(url, form, n) == tr + LaterPolls(url, form, n + 1)
  {
    var poll := [Wait(5 * ONE_SECOND, false), Request(POST, url, FormOf(form))];
    LaterPollsCons(url, form, n);
    assert tr + poll + LaterPolls(url, form, n) == tr + (poll + LaterPolls(url, form, n));
  }

  /**
   * The poller sends between 1 and 60 status requests, the first after 0 ms
   * and every later one after 5000 ms; each consumes one reply and nothing
   * is written.
   */
  lemma PollShape(s: State, url: string, form: map<string, string>, format: string)
    ensures var p := Poll(s, url, form, format);
      1 <= p.attempts <= MAX_RETRY
      && p.st.disk == s.disk
      && p.st.replies == Drop(s.replies, p.attempts)
      && p.st.trace == s.trace + [Wait(0, false), Request(POST, url, FormOf(form))] + LaterPolls(url, form, p.attempts - 1)
  {
    var a := Post(Pause(s, 0, false), url, form);
    var t := Continue(a.st, StatusValue(a.reply), 1, url, form);
    assert a.st.replies == Drop(s.replies, 1);
    DropDrop(s.replies, t.attempts - 1);
    assert a.st.trace == s.trace + [Wait(0, false), Request(POST, url, FormOf(form))];
  }

  /**
   * The poller stops at the first reply whose `GenerationCompleted` is not
   * "False" (or that fails), and the file is ready exactly when that last
   * value is "True".
   */
  lemma PollValues(s: State, url: string, form: map<string, string>, format: string)
    ensures var p := Poll(s, url, form, format);
      var n := p.attempts;
      1 <= n
      && (forall i :: 0 <= i < n - 1 ==> StatusValue(ReplyAt(s.replies, i)) == Done("False"))
      && (n < MAX_RETRY ==> StatusValue(ReplyAt(s.replies, n - 1)) != Done("False"))
      && p.out == Conclude(StatusValue(ReplyAt(s.replies, n - 1)), format)
      && ((p.out.Done? && p.out.value.ready) <==> StatusValue(ReplyAt(s.replies, n - 1)) == Done("True"))
  {
    var rs := s.replies;
    var v := StatusValue(ReplyAt(rs, 0));
    var a := Post(Pause(s, 0, false), url, form);
    assert a.st.replies == Drop(rs, 1) && StatusValue(a.reply) == v;
    var t := Continue(a.st, v, 1, url, form);
    var n := Attempts(Drop(rs, 1), v, 1);
    var last := ValueAfter(Drop(rs, 1), v, n - 1);
    assert t.attempts == n && t.last == last;
    assert Poll(s, url, form, format) == Polled(Conclude(last, format), t.st, n);
    AttemptsValues(Drop(rs, 1), v, 1);
    ValueAfterFirst(rs, n - 1);
    forall i | 0 <= i < n - 1 ensures StatusValue(ReplyAt(rs, i)) == Done("False") {
      ValueAfterFirst(rs, i);
    }
  }

  /** Counting from the first reply, the `i`-th value read is that of reply `i`. */
  lemma ValueAfterFirst(rs: seq<Reply>, i: nat)
    ensures ValueAfter(Drop(rs, 1), StatusValue(ReplyAt(rs, 0)), i) == StatusValue(ReplyAt(rs, i))
  {
    if i > 0 {
      ReplyAtDrop(rs, 1, i - 1);
    }
  }


  /** The first post's `RequestSuccess` decides whether polling starts at all. */
  function GenerateSpec(s: State, cfg: Config, isbn: string, nid: string, fileType: string): (p: Polled)
    ensures Read(ReplyAt(s.replies, 0), "RequestSuccess") != Done("True") ==>
      p.attempts == 0 && p.st == Post(s, cfg.generateProductServiceUrl, GenerateForm(isbn, nid, fileType)).st
      && (p.out.Done? ==> p.out.value == Generation(false, Some("Cannot generate " + fileType + " file")))
  {
    var form := GenerateForm(isbn, nid, fileType);
    var a := Post(s, cfg.generateProductServiceUrl, form);
    match Read(a.reply, "RequestSuccess")
    case Done(v) =>
      if v == "True" then Poll(a.st, cfg.generateProductServiceUrl, form, fileType)
      else Polled(Done(Generation(false, Some("Cannot generate " + fileType + " file"))), a.st, 0)
    case Failed(e) => Polled(Failed(e), a.st, 0)
    case Stalled => Polled(Stalled, a.st, 0)
  }

  /**
   * `generateProduct`: ask for the file; poll only when the answer's
   * `RequestSuccess` is "True", and otherwise report "Cannot generate" with
   * no poll.
   */
  method GenerateProduct(s: State, cfg: Config, isbn: string, nid: string, fileType: string) returns (r: Polled)
    ensures r == GenerateSpec(s, cfg, isbn, nid, fileType)
  {
    var form := GenerateForm(isbn, nid, fileType);
    var a := Post(s, cfg.generateProductServiceUrl, form);
    var success := Read(a.reply, "RequestSuccess");
    if success == Done("True") {
      var out, st, counter := WaitUntilGenerated(a.st, cfg.generateProductServiceUrl, form, fileType);
      r := Polled(out, st, counter);
    } else if success.Done? {
      r := Polled(Done(Generation(false, Some("Cannot generate " + fileType + " file"))), a.st, 0);
    } else {
      r := Polled(Failed(success.reason), a.st, 0);
    }
  }

  // ---------------------------------------------------------------- products

  /**
   * `checkSizeAndDownloadBook`: the book's folder `booksDir/<name>` is made
   * if missing, an existing non-empty file is kept, and otherwise the
   * size-checked download runs.
   */
  function CheckSizeAndDownloadBook(s: State, st: Settings, url: string, title: string, fileFormat: string): (r: Step<()>)
    ensures var dir := st.booksDir + "/" + st.pathName(title);
      Files.DirectoryExists(r.st.disk, dir)
      && (Files.ElementExists(s.disk, dir, st.pathName(title) + "." + fileFormat) ==> r == Step(Done(()), EnsureDirectory(s, dir)))
  {
    var name := st.pathName(title);
    var dir := st.booksDir + "/" + name;
    var s1 := EnsureDirectory(s, dir);
    var file := name + "." + fileFormat;
    if Files.ElementExists(s1.disk, dir, file) then Step(Done(()), s1)
    else
      var r := CheckSizeAndDownloadFile(s1, st.maxFileSize, url, dir, file);
      assert Files.DirectoryExists(r.st.disk, dir) by {
        assert r.st.disk.dirs == s1.disk.dirs;
      }
      r
  }

  /**
   * One link of `getProducts`. A ready link goes to the download. A regen
   * link is skipped when `booksDir + name` (no separator) already holds the
   * file; otherwise, after a jittered two-second pause, the file is
   * generated and downloaded only if generation reports it ready.
   */
  function LinkStep(s: State, st: Settings, cfg: Config, title: string, link: RefreshLink): Step<()> {
    match link
    case Ready(url, ft) => CheckSizeAndDownloadBook(s, st, url, title, ft)
    case Regen(isbn, nid, ft) =>
      var name := st.pathName(title);
      if Files.ElementExists(s.disk, st.booksDir + name, name + "." + ft) then Step(Done(()), s)
      else
        var g := GenerateSpec(Pause(s, 2 * ONE_SECOND, true), cfg, isbn, nid, ft);
        match g.out
        case Done(gen) =>
          if gen.ready then CheckSizeAndDownloadBook(g.st, st, PrepareDownloadLink(cfg, isbn, ft, nid), title, ft)
          else Step(Done(()), g.st)
        case Failed(e) => Step(Failed(e), g.st)
        case Stalled => Step(Stalled, g.st)
  }

  /** The links of one entry in order, stopping at the first that does not resolve. */
  function LinksStep(s: State, st: Settings, cfg: Config, title: string, links: seq<RefreshLink>): Step<()>
    decreases |links|
  {
    if links == [] then Step(Done(()), s)
    else
      var r := LinkStep(s, st, cfg, title, links[0]);
      if r.out.Done? then LinksStep(r.st, st, cfg, title, links[1..]) else r
  }

  /** One entry inside its `try`: a link that cannot be parsed fails the entry before any download. */
  function EntryStep(s: State, st: Settings, cfg: Config, e: ShelfEntry): Step<()> {
    match RefreshLinks(cfg.mainServiceUrl, e.hrefs)
    case None => Step(Failed("TypeError: unreadable link"), s)
    case Some(links) => LinksStep(s, st, cfg, e.title, links)
  }

  /** All entries: a failing entry is logged and the next one runs; a step that never settles stops everything. */
  function Products(s: State, st: Settings, cfg: Config, entries: seq<ShelfEntry>): (r: Step<()>)
    ensures !r.out.Failed?
    decreases |entries|
  {
    if entries == [] then Step(Done(()), s)
    else
      var r := EntryStep(s, st, cfg, entries[0]);
      if r.out.Stalled? then r else Products(r.st, st, cfg, entries[1..])
  }

  /** One link, as the statement sequence of the inner loop body. */
  method ProcessLink(s: State, st: Settings, cfg: Config, title: string, link: RefreshLink) returns (r: Step<()>)
    ensures r == LinkStep(s, st, cfg, title, link)
  {
    match link
    case Ready(url, ft) =>
      r := CheckSizeAndDownloadBook(s, st, url, title, ft);
    case Regen(isbn, nid, ft) =>
      var name := st.pathName(title);
      if Files.ElementExists(s.disk, st.booksDir + name, name + "." + ft) {
        r := Step(Done(()), s);
      } else {
        var g := GenerateProduct(Pause(s, 2 * ONE_SECOND, true), cfg, isbn, nid, ft);
        if g.out.Done? && g.out.value.ready {
          r := CheckSizeAndDownloadBook(g.st, st, PrepareDownloadLink(cfg, isbn, ft, nid), title, ft);
        } else if g.out.Done? {
          r := Step(Done(()), g.st);
        } else if g.out.Failed? {
          r := Step(Failed(g.out.reason), g.st);
        } else {
          r := Step(Stalled, g.st);
        }
      }
  }

  /** The inner loop of `getProducts` over the links of one entry. */
  method ProcessLinks(s: State, st: Settings, cfg: Config, title: string, ls: seq<RefreshLink>) returns (step: Step<()>)
    ensures step == LinksStep(s, st, cfg, title, ls)
  {
    step := Step(Done(()), s);
    var j := 0;
    while j < |ls| && step.out.Done?
      invariant 0 <= j <= |ls|
      invariant step.out.Done? ==> LinksStep(s, st, cfg, title, ls) == LinksStep(step.st, st, cfg, title, ls[j..])
      invariant !step.out.Done? ==> LinksStep(s, st, cfg, title, ls) == step
    {
      assert ls[j..][0] == ls[j] && ls[j..][1..] == ls[j + 1..];
      step := ProcessLink(step.st, st, cfg, title, ls[j]);
      j := j + 1;
    }
    if step.out.Done? {
      assert ls[j..] == [];
      assert step.out.value == ();
    }
  }

  /** The `try` block for one shelf entry: parse its links, then process them in order. */
  method ProcessEntry(s: State, st: Settings, cfg: Config, e: ShelfEntry) returns (step: Step<()>)
    ensures step == EntryStep(s, st, cfg, e)
  {
    var links := GetRefreshLinks(cfg.mainServiceUrl, e.hrefs);
    if links.None? {
      step := Step(Failed("TypeError: unreadable link"), s);
    } else {
      step := ProcessLinks(s, st, cfg, e.title, links.value);
    }
  }

  /** `getProducts`: the loop over shelf entries; a failed entry is caught and the loop goes on. */
  method GetProducts(s0: State, st: Settings, cfg: Config, entries: seq<ShelfEntry>) returns (r: Step<()>)
    ensures r == Products(s0, st, cfg, entries)
  {
    var s := s0;
    var i := 0;
    while i < |entries|
      invariant 0 <= i <= |entries|
      invariant Products(s0, st, cfg, entries) == Products(s, st, cfg, entries[i..])
    {
      assert entries[i..][0] == entries[i] && entries[i..][1..] == entries[i + 1..];
      var step := ProcessEntry(s, st, cfg, entries[i]);
      if step.out.Stalled? {
        return step;
      }
      s := step.st;
      i := i + 1;
    }
    assert entries[i..] == [];
    r := Step(Done(()), s);
  }

  // ---------------------------------------------------------------- properties

  /**
   * A regen link whose file is already present under `booksDir + name`
   * sends no request, waits for nothing and writes nothing.
   */
  lemma RegenSkipsPresentFile(s: State, st: Settings, cfg: Config, title: string, isbn: string, nid: string, ft: string)
    requires Files.ElementExists(s.disk, st.booksDir + st.pathName(title), st.pathName(title) + "." + ft)
    ensures LinkStep(s, st, cfg, title, Regen(isbn, nid, ft)) == Step(Done(()), s)
  {
  }

  /**
   * A regen link whose generation does not report ready writes nothing:
   * the disk is as before, and the book's folder is not even made.
   */
  lemma RegenNotReadyWritesNothing(s: State, st: Settings, cfg: Config, title: string, isbn: string, nid: string, ft: string)
    requires !GenerateSpec(Pause(s, 2 * ONE_SECOND, true), cfg, isbn, nid, ft).out.Done?
      || !GenerateSpec(Pause(s, 2 * ONE_SECOND, true), cfg, isbn, nid, ft).out.value.ready
    ensures LinkStep(s, st, cfg, title, Regen(isbn, nid, ft)).st.disk == s.disk
  {
    GenerateDiskUnchanged(Pause(s, 2 * ONE_SECOND, true), cfg, isbn, nid, ft);
  }

  lemma GenerateDiskUnchanged(s: State, cfg: Config, isbn: string, nid: string, ft: string)
    ensures GenerateSpec(s, cfg, isbn, nid, ft).st.disk == s.disk
  {
    var form := GenerateForm(isbn, nid, ft);
    var a := Post(s, cfg.generateProductServiceUrl, form);
    PollShape(a.st, cfg.generateProductServiceUrl, form, ft);
  }

  /**
   * The regen path looks for the file under `booksDir + name` while the
   * download writes it under `booksDir + "/" + name`: the two are the same
   * file when `booksDir` ends in '/', and different files otherwise (for a
   * name that does not itself start with '/').
   */
  lemma RegenCheckPath(st: Settings, title: string, ft: string)
    ensures var name := st.pathName(title);
      var checked := st.booksDir + name + "/" + name + "." + ft;
      var written := st.booksDir + "/" + name + "/" + name + "." + ft;
      (EndsWith(st.booksDir, "/") ==> Files.Key(checked) == Files.Key(written))
      && (!EndsWith(st.booksDir, "/") && name != [] && name[0] != '/' ==> Files.Key(checked) != Files.Key(written))
  {
    var name := st.pathName(title);
    var rest := name + "/" + name + "." + ft;
    Files.SeparatorMatters(st.booksDir, rest);
    assert st.booksDir + name + "/" + name + "." + ft == st.booksDir + rest;
    assert st.booksDir + "/" + name + "/" + name + "." + ft == st.booksDir + "/" + rest;
  }
}
