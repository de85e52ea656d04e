/**
 * The Nexto adapter: a form login, a bookshelf spread over several pages,
 * and for every file a status service that says whether the file has to be
 * prepared ('1'), is being prepared ('2') or is ready ('3'); the adapter
 * polls that service until the file is ready and then downloads it.
 */
module Nexto {
  import opened Wrappers
  import opened Text
  import Files
  import opened Env
  import opened Bookstore
  import opened Lists

  const NOT_LOGGED_IN_MARKER := "login.xml"
  const MAX_RETRY: nat := 60

  /** The store entry's service addresses this adapter reads besides the common ones. */
  datatype Config = Config(productStatusServiceUrl: string, prepareProductServiceUrl: string)

  /** A download button: its first text node and its href. */
  datatype Button = Button(text: string, href: string)

  /** A row of the library table: the title and author texts and the download buttons. */
  datatype Row = Row(titleText: string, authorsText: string, buttons: seq<Button>)

  /** What the adapter selects from a bookshelf page: the table rows and the page navigator's hrefs. */
  datatype Shelf = Shelf(rows: seq<Row>, pageHrefs: seq<string>)

  datatype Download = Download(fileType: string, downloadLink: string)

  datatype FileParams = FileParams(fileId: string, fileTypeId: string)

  /** The result of waiting for a file: ready, or not with the reason. */
  datatype Generation = Generation(ready: bool, error: Option<string>)

  /** A poll's outcome, its final state and how many status calls it made. */
  datatype Polled = Polled(out: Outcome<Generation>, st: State, attempts: nat)

  /** Where the poll loop stops: the last status read, the state, and how many calls it made. */
  datatype Tally = Tally(last: Outcome<string>, st: State, attempts: nat)

  // ---------------------------------------------------------------- login

  /**
   * The login form as the HTTP client encodes it: `extra_param: null` is
   * sent empty and the nested `remember` object as two bracketed fields.
   */
  function LoginForm(acct: Account): map<string, string> {
    map["fb_form_id" := "login", "email" := acct.login, "password" := acct.password,
        "extra_param" := "", "remember[0]" := "1", "remember[1]" := "0"]
  }

  /**
   * `logIn`: visit the login form, then post the credentials and check
   * again. A failed visit rejects with its error before anything is posted;
   * otherwise the login resolves with the bookshelf body exactly when the
   * form was answered, the post was answered, and the final URL of the
   * second check lacks "login.xml".
   */
  function LogIn(s: State, acct: Account): (r: Step<string>)
    ensures !r.out.Stalled?
    ensures r.out.Done? <==> ((forall i :: 0 <= i < 3 ==> ReplyAt(s.replies, i).Answer?)
      && MarkerAbsent(ReplyAt(s.replies, 2).response.finalUrl, NOT_LOGGED_IN_MARKER))
    ensures r.out.Done? ==> r.out.value == ReplyAt(s.replies, 2).response.body
    ensures ReplyAt(s.replies, 0).TransportError? ==>
      r.out == Failed(ReplyAt(s.replies, 0).reason)
      && r.st.trace == s.trace + [Wait(0, true), Request(GET, acct.loginFormUrl, Plain), Wait(3 * ONE_SECOND, false)]
    ensures ReplyAt(s.replies, 0).Answer? && ReplyAt(s.replies, 1).Answer? ==>
      r.st.trace == s.trace + [Wait(0, true), Request(GET, acct.loginFormUrl, Plain), Wait(3 * ONE_SECOND, false),
                               Request(POST, acct.loginServiceUrl, FormOf(LoginForm(acct))), Request(GET, acct.bookshelfUrl, Plain)]
    ensures r.out.Failed? && ReplyAt(s.replies, 0).Answer? ==> Contains(r.out.reason, acct.login)
    ensures r.st.disk == s.disk
  {
    var v := VisitLoginForm(s, acct.loginFormUrl);
    ReplyAtDrop(s.replies, 1, 0);
    ReplyAtDrop(s.replies, 1, 1);
    match v.out
    case Done(_) => SendLoginForm(v.st, acct, NOT_LOGGED_IN_MARKER, FormOf(LoginForm(acct)))
    case Failed(e) => Step(Failed(e), v.st)
    case Stalled => Step(Stalled, v.st)
  }

  // ---------------------------------------------------------------- services

  const SERVICE_KEYS: seq<string> := ["_fileId_", "_fileTypeId_"]

  /** `prepareServiceUrl`: the service address template with its placeholders filled in. */
  function PrepareServiceUrl(template: string, fileId: string, fileTypeId: string): string {
    Substitute(template, SERVICE_KEYS, map["_fileId_" := fileId, "_fileTypeId_" := fileTypeId])
  }

  lemma ServiceKeysAreTokens()
    ensures TokenKeys(SERVICE_KEYS)
  {
    DifferAt(SERVICE_KEYS[0], SERVICE_KEYS[1], 5);
  }

  /**
   * Every `_fileId_` and `_fileTypeId_` of a template is replaced by its
   * value in one pass; the literal text is kept, and a value that itself
   * spells a placeholder stays as it is.
   */
  lemma PrepareServiceUrlFills(ps: seq<Piece>, fileId: string, fileTypeId: string)
    requires WellFormed(ps, SERVICE_KEYS)
    ensures PrepareServiceUrl(Template(ps), fileId, fileTypeId)
      == Filled(ps, map["_fileId_" := fileId, "_fileTypeId_" := fileTypeId])
  {
    ServiceKeysAreTokens();
    SubstituteFillsTemplate(ps, SERVICE_KEYS, map["_fileId_" := fileId, "_fileTypeId_" := fileTypeId]);
  }

  /**
   * What `callService` makes of a reply: the body parsed as XML and the
   * first `result.int` value (the decoded list of values) with its first
   * ".0" removed. A failed request or a body that does not parse rejects,
   * and so does a body without the value, where reading `int[0]` throws.
   */
  function ServiceValue(r: Reply): (o: Outcome<string>)
    ensures !o.Stalled?
    ensures o.Done? <==> r.Answer? && r.response.doc.Decoded? && |r.response.doc.values| > 0
    ensures r.TransportError? ==> o == Failed(r.reason)
  {
    match r
    case TransportError(e, _, _) => Failed(e)
    case Answer(resp) =>
      match resp.doc
      case Decoded(_, _, vs) =>
        if |vs| > 0 then Done(ReplaceFirst(vs[0], ".0", "")) else Failed("TypeError: cannot read int[0]")
      case Unparsable => Failed("XML parse error")
      case Missing => Failed("TypeError: cannot read result")
  }

  /**
   * A status the service writes as a number with a ".0" fraction reads as
   * the integer, and one written as an integer reads as it is.
   */
  lemma ServiceValueOfNumber(resp: Response, digits: string)
    requires digits != [] && forall i :: 0 <= i < |digits| ==> '0' <= digits[i] <= '9'
    requires resp.doc.Decoded? && |resp.doc.values| > 0
    requires resp.doc.values[0] == digits + ".0" || resp.doc.values[0] == digits
    ensures ServiceValue(Answer(resp)) == Done(digits)
  {
    var v := resp.doc.values[0];
    assert '.' !in digits;
    OccursAtCharAbsentPair(digits);
    if v == digits + ".0" {
      assert OccursAt(v, ".0", |digits|);
      var i := IndexOf(v, ".0");
      assert i == |digits|;
      assert v[..i] == digits;
      assert v[i + 2..] == [];
      assert ReplaceFirst(v, ".0", "") == digits + "" + [];
    }
  }

  /** Digits hold no ".0" anywhere, and ".0" placed after them is first found right there. */
  lemma OccursAtCharAbsentPair(digits: string)
    requires '.' !in digits
    ensures IndexOf(digits, ".0") < 0
    ensures forall j :: 0 <= j < |digits| ==> !OccursAt(digits + ".0", ".0", j)
  {
    forall j | 0 <= j ensures !OccursAt(digits, ".0", j) {
      if j < |digits| {
        assert digits[j] in digits;
      }
    }
    forall j | 0 <= j < |digits| ensures !OccursAt(digits + ".0", ".0", j) {
      assert (digits + ".0")[j] == digits[j];
      assert digits[j] in digits;
    }
  }

  /**
   * `callService`: fill in the address, fetch it after a jittered second,
   * and read the status out of the reply; exactly one request is sent.
   */
  function CallService(s: State, template: string, fileId: string, fileTypeId: string): (r: Step<string>)
    ensures r.out == ServiceValue(ReplyAt(s.replies, 0))
    ensures r.st.disk == s.disk && r.st.replies == Drop(s.replies, 1)
    ensures r.st.trace == s.trace + [Wait(ONE_SECOND, true), Request(GET, PrepareServiceUrl(template, fileId, fileTypeId), Plain)]
  {
    var p := GetPageBody(s, PrepareServiceUrl(template, fileId, fileTypeId), ONE_SECOND, false);
    match p.out
    case Done(resp) => Step(ServiceValue(Answer(resp)), p.st)
    case Failed(e) => Step(Failed(e), p.st)
    case Stalled => Step(Stalled, p.st)
  }

  // ---------------------------------------------------------------- polling

  /** One status call after an exact pause of `delay`, as a value. */
  function StatusCall(s: State, delay: nat, url: string): Step<string> {
    Step(ServiceValue(ReplyAt(s.replies, 0)),
         s.(replies := Drop(s.replies, 1),
            trace := s.trace + [Wait(delay, false), Wait(ONE_SECOND, true), Request(GET, url, Plain)]))
  }

  /** The loop body's pause and service call is that status call. */
  lemma CallServiceAfterPause(s: State, delay: nat, template: string, fileId: string, fileTypeId: string)
    ensures CallService(Pause(s, delay, false), template, fileId, fileTypeId)
      == StatusCall(s, delay, PrepareServiceUrl(template, fileId, fileTypeId))
  {
    var url := PrepareServiceUrl(template, fileId, fileTypeId);
    assert s.trace + [Wait(delay, false)] + [Wait(ONE_SECOND, true), Request(GET, url, Plain)]
      == s.trace + [Wait(delay, false), Wait(ONE_SECOND, true), Request(GET, url, Plain)];
  }

  /** The loop goes on after a status that was read and is not '3'. */
  predicate Pending(value: Outcome<string>) {
    value.Done? && value.value != "3"
  }

  /**
   * The verdict once polling stops: ready exactly on '3'; any other status
   * reports the number of attempts made. A failed call rejects.
   */
  function Conclude(value: Outcome<string>, count: nat): (r: Outcome<Generation>)
    ensures (r.Done? && r.value.ready) <==> value == Done("3")
    ensures r.Done? <==> value.Done?
    ensures r.Done? && !r.value.ready ==> r.value.error == Some("Could not generate file after " + NatToString(count) + " attempts")
    ensures value.Failed? ==> r == Failed(value.reason)
  {
    match value
    case Done(v) =>
      if v == "3" then Done(Generation(true, None))
      else Done(Generation(false, Some("Could not generate file after " + NatToString(count) + " attempts")))
    case Failed(e) => Failed(e)
    case Stalled => Stalled
  }

  /**
   * How many status calls the loop has made when it stops, if it has made
   * `count` so far, the last of which read `value`, and `rs` holds the
   * replies still to come.
   */
  function Attempts(rs: seq<Reply>, value: Outcome<string>, count: nat): (n: nat)
    requires 1 <= count <= MAX_RETRY
    ensures count <= n <= MAX_RETRY
    decreases MAX_RETRY - count
  {
    if Pending(value) && count < MAX_RETRY then
      Attempts(Drop(rs, 1), ServiceValue(ReplyAt(rs, 0)), count + 1)
    else count
  }

  /** The status read `i` calls after the one that read `value`, from the replies that followed it. */
  function ValueAfter(rs: seq<Reply>, value: Outcome<string>, i: nat): Outcome<string> {
    if i == 0 then value else ServiceValue(ReplyAt(rs, i - 1))
  }

  /** The events of `n` further status calls, each after an exact five-second pause. */
  function LaterPolls(url: string, n: nat): seq<Event> {
    if n == 0 then [] else LaterPolls(url, n - 1) + [Wait(5 * ONE_SECOND, false), Wait(ONE_SECOND, true), Request(GET, url, Plain)]
  }

  /** Where the poll loop ends up from `count` calls and the last status read. */
  function Continue(st: State, value: Outcome<string>, count: nat, url: string): Tally
    requires 1 <= count <= MAX_RETRY
  {
    var n := Attempts(st.replies, value, count);
    var k := n - count;
    Tally(ValueAfter(st.replies, value, k),
          st.(replies := Drop(st.replies, k), trace := st.trace + LaterPolls(url, k)), n)
  }

  /** The whole poll: the first call after an exact pause of 0 ms. A call that fails never stalls the poll. */
  function Poll(s: State, url: string): (p: Polled)
    ensures !p.out.Stalled?
  {
    var f := StatusCall(s, 0, url);
    var t := Continue(f.st, f.out, 1, url);
    Polled(Conclude(t.last, t.attempts), t.st, t.attempts)
  }

  /** One more round of the loop body leads to the same end. */
  lemma ContinueStep(st: State, value: Outcome<string>, count: nat, url: string)
    requires 1 <= count < MAX_RETRY && Pending(value)
    ensures var a := StatusCall(st, 5 * ONE_SECOND, url);
      Continue(a.st, a.out, count + 1, url) == Continue(st, value, count, url)
  {
    var a := StatusCall(st, 5 * ONE_SECOND, url);
    var rs := st.replies;
    assert a.st.replies == Drop(rs, 1) && a.out == ServiceValue(ReplyAt(rs, 0));
    var n := Attempts(rs, value, count);
    assert Attempts(a.st.replies, a.out, count + 1) == n;
    var k := n - count;
    ValueAfterShift(rs, value);
    assert ValueAfter(a.st.replies, a.out, k - 1) == ValueAfter(rs, value, k);
    DropDrop(rs, k - 1);
    LaterPollsAfter(st.trace, url, k - 1);
  }

  /** When the loop condition fails, the loop is over. */
  lemma ContinueStop(st: State, value: Outcome<string>, count: nat, url: string)
    requires 1 <= count <= MAX_RETRY && !(Pending(value) && count < MAX_RETRY)
    ensures Continue(st, value, count, url) == Tally(value, st, count)
  {
    DropZero(st.replies);
    assert st.trace + [] == st.trace;
  }

  /**
   * `waitForProductToBeGenerated`: the do-while loop with its counter and
   * its delay. A status call that rejects leaves the loop at once.
   */
  method WaitForProductToBeGenerated(s0: State, template: string, fileId: string, fileTypeId: string)
    returns (out: Outcome<Generation>, s: State, count: nat)
    ensures Polled(out, s, count) == Poll(s0, PrepareServiceUrl(template, fileId, fileTypeId))
  {
    var delay: nat := 0;
    // first pass of the do-while body
    CallServiceAfterPause(s0, delay, template, fileId, fileTypeId);
    var status := CallService(Pause(s0, delay, false), template, fileId, fileTypeId);
    var last;
    last, s, count := PollRest(status.st, status.out, template, fileId, fileTypeId);
    out := Conclude(last, count);
  }

  /** The later passes of the do-while loop, once the first status has been read. */
  method PollRest(s0: State, status0: Outcome<string>, template: string, fileId: string, fileTypeId: string)
    returns (last: Outcome<string>, s: State, count: nat)
    ensures Tally(last, s, count) == Continue(s0, status0, 1, PrepareServiceUrl(template, fileId, fileTypeId))
  {
    ghost var url := PrepareServiceUrl(template, fileId, fileTypeId);
    var delay: nat := 5 * ONE_SECOND;
    var status := Step(status0, s0);
    count := 1;
    while Pending(status.out) && count < MAX_RETRY
      invariant 1 <= count <= MAX_RETRY
      invariant delay == 5 * ONE_SECOND
      invariant Continue(status.st, status.out, count, url) == Continue(s0, status0, 1, url)
      decreases MAX_RETRY - count
    {
      status := CallServiceAgain(status.st, status.out, count, delay, template, fileId, fileTypeId);
      delay := 5 * ONE_SECOND;
      count := count + 1;
    }
    ContinueStop(status.st, status.out, count, url);
    last, s := status.out, status.st;
  }


  /** A later pass of the do-while body: the pause, then the service call, lead to the same end. */
  method CallServiceAgain(s: State, status: Outcome<string>, count: nat, delay: nat,
                          template: string, fileId: string, fileTypeId: string) returns (next: Step<string>)
    requires 1 <= count < MAX_RETRY && Pending(status) && delay == 5 * ONE_SECOND
    ensures var url := PrepareServiceUrl(template, fileId, fileTypeId);
      Continue(next.st, next.out, count + 1, url) == Continue(s, status, count, url)
  {
    ContinueStep(s, status, count, PrepareServiceUrl(template, fileId, fileTypeId));
    CallServiceAfterPause(s, delay, template, fileId, fileTypeId);
    next := CallService(Pause(s, delay, false), template, fileId, fileTypeId);
  }

  /** Which statuses the loop read: pending on every call but the last, which stopped it. */
  lemma {:induction false} AttemptsValues(rs: seq<Reply>, value: Outcome<string>, count: nat)
    requires 1 <= count <= MAX_RETRY
    ensures var k := Attempts(rs, value, count) - count;
      (forall i :: 0 <= i < k ==> Pending(ValueAfter(rs, value, i)))
      && (count + k < MAX_RETRY ==> !Pending(ValueAfter(rs, value, k)))
    decreases MAX_RETRY - count
  {
    if Pending(value) && count < MAX_RETRY {
      var v := ServiceValue(ReplyAt(rs, 0));
      AttemptsValues(Drop(rs, 1), v, count + 1);
      var k := Attempts(rs, value, count) - count;
      ValueAfterShift(rs, value);
      forall i | 0 <= i < k ensures Pending(ValueAfter(rs, value, i)) {
        if i > 0 {
          assert Pending(ValueAfter(Drop(rs, 1), v, i - 1));
        }
      }
    }
  }

  /** After one more call, the statuses read so far shift by one place. */
  lemma ValueAfterShift(rs: seq<Reply>, value: Outcome<string>)
    ensures forall i: nat :: ValueAfter(Drop(rs, 1), ServiceValue(ReplyAt(rs, 0)), i) == ValueAfter(rs, value, i + 1)
  {
    forall i: nat ensures ValueAfter(Drop(rs, 1), ServiceValue(ReplyAt(rs, 0)), i) == ValueAfter(rs, value, i + 1) {
      if i > 0 {
        ReplyAtDrop(rs, 1, i - 1);
      }
    }
  }

  lemma {:induction false} LaterPollsCons(url: string, n: nat)
    ensures [Wait(5 * ONE_SECOND, false), Wait(ONE_SECOND, true), Request(GET, url, Plain)] + LaterPolls(url, n) == LaterPolls(url, n + 1)
  {
    if n > 0 {
      LaterPollsCons(url, n - 1);
    }
  }

  lemma LaterPollsAfter(tr: seq<Event>, url: string, n: nat)
    ensures tr + [Wait(5 * ONE_SECOND, false), Wait(ONE_SECOND, true), Request(GET, url, Plain)] + LaterPolls(url, n) == tr + LaterPolls(url, n + 1)
  {
    var poll := [Wait(5 * ONE_SECOND, false), Wait(ONE_SECOND, true), Request(GET, url, Plain)];
    LaterPollsCons(url, n);
    assert tr + poll + LaterPolls(url, n) == tr + (poll + LaterPolls(url, n));
  }

  /**
   * The poller makes between 1 and 60 status calls, the first after an
   * exact pause of 0 ms and every later one after 5000 ms; each consumes
   * one reply and nothing is written.
   */
  lemma PollShape(s: State, url: string)
    ensures var p := Poll(s, url);
      1 <= p.attempts <= MAX_RETRY
      && p.st.disk == s.disk
      && p.st.replies == Drop(s.replies, p.attempts)
      && p.st.trace == s.trace + [Wait(0, false), Wait(ONE_SECOND, true), Request(GET, url, Plain)] + LaterPolls(url, p.attempts - 1)
  {
    var f := StatusCall(s, 0, url);
    var t := Continue(f.st, f.out, 1, url);
    assert f.st.replies == Drop(s.replies, 1);
    DropDrop(s.replies, t.attempts - 1);
  }

  /**
   * The poller stops at the first status that is '3' or that fails, or
   * after 60 calls, and its verdict is drawn from the last status read.
   */
  lemma PollStops(s: State, url: string)
    ensures var p := Poll(s, url);
      var n := p.attempts;
      var last := ServiceValue(ReplyAt(s.replies, n - 1));
      1 <= n <= MAX_RETRY
      && (forall i :: 0 <= i < n - 1 ==> Pending(ServiceValue(ReplyAt(s.replies, i))))
      && (n < MAX_RETRY ==> !Pending(last))
      && p.out == Conclude(last, n)
  {
    var rs := s.replies;
    var v := ServiceValue(ReplyAt(rs, 0));
    var f := StatusCall(s, 0, url);
    assert f.st.replies == Drop(rs, 1) && f.out == v;
    var n := Attempts(Drop(rs, 1), v, 1);
    assert Poll(s, url).attempts == n;
    assert forall i: nat :: ValueAfter(Drop(rs, 1), v, i) == ServiceValue(ReplyAt(rs, i)) by {
      forall i: nat ensures ValueAfter(Drop(rs, 1), v, i) == ServiceValue(ReplyAt(rs, i)) {
        if i > 0 {
          ReplyAtDrop(rs, 1, i - 1);
        }
      }
    }
    AttemptsValues(Drop(rs, 1), v, 1);
    assert ValueAfter(Drop(rs, 1), v, n - 1) == ServiceValue(ReplyAt(rs, n - 1));
  }

  /**
   * The file is ready exactly when the last status read is '3', and a file
   * that is not ready was given up on after 60 calls, which the error
   * message names.
   */
  lemma PollValues(s: State, url: string)
    ensures var p := Poll(s, url);
      var last := ServiceValue(ReplyAt(s.replies, p.attempts - 1));
      && ((p.out.Done? && p.out.value.ready) <==> last == Done("3"))
      && (last.Failed? ==> p.out == Failed(last.reason))
      && (p.out.Done? && !p.out.value.ready ==>
            p.attempts == MAX_RETRY && p.out.value.error == Some("Could not generate file after 60 attempts"))
  {
    var p := Poll(s, url);
    var last := ServiceValue(ReplyAt(s.replies, p.attempts - 1));
    PollStops(s, url);
    assert 1 <= p.attempts <= MAX_RETRY && (p.attempts < MAX_RETRY ==> !Pending(last));
    assert p.out == Conclude(last, p.attempts);
    GiveUpVerdict(last, p.attempts);
  }

  /** A status that is not '3' reaches a verdict only on the 60th call. */
  lemma GiveUpVerdict(last: Outcome<string>, n: nat)
    requires n <= MAX_RETRY && (n < MAX_RETRY ==> !Pending(last))
    ensures var r := Conclude(last, n);
      r.Done? && !r.value.ready ==> n == MAX_RETRY && r.value.error == Some("Could not generate file after 60 attempts")
  {
    if Pending(last) {
      RetryMessage();
    }
  }

  /** The give-up message names the 60 calls. */
  lemma RetryMessage()
    ensures "Could not generate file after " + NatToString(MAX_RETRY) + " attempts" == "Could not generate file after 60 attempts"
  {
    NatToStringTwoDigits(MAX_RETRY);
    assert DigitChar(6) == '6' && DigitChar(0) == '0';
  }

  // ---------------------------------------------------------------- scraped text

  /**
   * `getAuthors`: a trailing comma (with any white space after it) is
   * dropped, the text is cut to its first 100 characters, then trimmed.
   */
  function GetAuthors(text: string): (r: string)
    ensures |r| <= 100
    ensures r == [] || (!IsSpace(r[0]) && !IsSpace(r[|r| - 1]))
  {
    var t := DropTrailingComma(text);
    var u := if |t| <= 100 then t else t[..100];
    assert |u| <= 100;
    Trim(u)
  }

  /** `s.replace(/,[\s]*$/g, '')`: only a comma followed by nothing but white space can match. */
  function DropTrailingComma(s: string): (r: string)
    ensures |r| <= |s| && r == s[..|r|]
  {
    var t := TrimEnd(s);
    if t != [] && t[|t| - 1] == ',' then t[..|t| - 1] else s
  }

  /** A short list of names keeps its text, with or without a trailing comma and white space after it. */
  lemma GetAuthorsDropsComma(names: string, ws: string)
    requires |names| <= 100 && names != []
    requires !IsSpace(names[0]) && !IsSpace(names[|names| - 1]) && names[|names| - 1] != ','
    requires forall i :: 0 <= i < |ws| ==> IsSpace(ws[i])
    ensures GetAuthors(names + "," + ws) == names
    ensures GetAuthors(names) == names
  {
    TrimEndSpaces(names + ",", ws);
    assert (names + ",")[..|names|] == names;
    assert names + "," + ws == (names + ",") + ws;
  }

  /** The number of leading '-' of `s`. */
  function DashRun(s: string): (n: nat)
    ensures n <= |s|
  {
    if s != [] && s[0] == '-' then 1 + DashRun(s[1..]) else 0
  }

  /** The number of leading white-space characters of `s`. */
  function SpaceRun(s: string): (n: nat)
    ensures n <= |s|
  {
    if s != [] && IsSpace(s[0]) then 1 + SpaceRun(s[1..]) else 0
  }

  /**
   * The length of a match of `[\s]+-[\s]+e[-]*book|[\s]+-[\s]+audiobook`
   * at the start of `s`, or 0. Each run is maximal, as the character after
   * it must be '-', 'e', 'a' or 'b'.
   */
  function EditionTagAt(s: string): (n: nat)
    ensures n <= |s|
  {
    var a := SpaceRun(s);
    if a == 0 || a == |s| || s[a] != '-' then 0
    else
      var b := SpaceRun(s[a + 1..]);
      var w := TagWordAt(s[a + 1 + b..]);
      if b == 0 || w == 0 then 0 else a + 1 + b + w
  }

  /** The length of `e[-]*book` or `audiobook` at the start of `s`, or 0. */
  function TagWordAt(s: string): (n: nat)
    ensures n <= |s|
  {
    if s != [] && s[0] == 'e' && StartsWith(s[1 + DashRun(s[1..])..], "book") then 1 + DashRun(s[1..]) + 4
    else if StartsWith(s, "audiobook") then 9
    else 0
  }

  /** Behind a single blank, a dash and a single blank, the match is the tag word's. */
  lemma SpacedDashTag(w: string)
    requires w != [] && !IsSpace(w[0])
    ensures EditionTagAt(" - " + w) == if TagWordAt(w) == 0 then 0 else 3 + TagWordAt(w)
  {
    var e := " - " + w;
    assert e == [' ', '-', ' '] + w;
    assert e[1..] == ['-', ' '] + w;
    assert SpaceRun(e) == 1;
    assert e[2..] == [' '] + w;
    assert SpaceRun(e[2..]) == 1;
    assert e[3..] == w;
  }

  /** The global replacement of that pattern by nothing, in one left-to-right pass. */
  function RemoveEditionTags(s: string): (r: string)
    ensures |r| <= |s|
    decreases |s|
  {
    if s == [] then ""
    else
      var n := EditionTagAt(s);
      if n > 0 then RemoveEditionTags(s[n..]) else [s[0]] + RemoveEditionTags(s[1..])
  }

  /** `getTitle`: white-space runs become one blank, the edition tags go, and the result is trimmed. */
  function GetTitle(text: string): (r: string)
    ensures r == [] || (!IsSpace(r[0]) && !IsSpace(r[|r| - 1]))
  {
    Trim(RemoveEditionTags(CollapseSpaces(text)))
  }

  /** Text without white space is kept by the tag removal. */
  lemma {:induction false} RemoveEditionTagsPlain(l: string, rest: string)
    requires forall i :: 0 <= i < |l| ==> !IsSpace(l[i])
    ensures RemoveEditionTags(l + rest) == l + RemoveEditionTags(rest)
  {
    if l != [] {
      var t := l + rest;
      assert SpaceRun(t) == 0;
      assert t[1..] == l[1..] + rest;
      RemoveEditionTagsPlain(l[1..], rest);
      assert l == [l[0]] + l[1..];
    } else {
      assert l + rest == rest;
    }
  }

  /** A title without white space loses a trailing spaced dash and tag word. */
  lemma {:induction false} TagSuffix(title: string, w: string)
    requires forall i :: 0 <= i < |title| ==> !IsSpace(title[i])
    requires EditionTagAt(" - " + w) == |" - " + w|
    ensures RemoveEditionTags(title + " - " + w) == title
  {
    var t := title + " - " + w;
    if title == [] {
      assert t == " - " + w;
      assert t[|t|..] == [];
    } else {
      assert SpaceRun(t) == 0;
      assert t[1..] == title[1..] + " - " + w;
      TagSuffix(title[1..], w);
      assert title == [title[0]] + title[1..];
    }
  }

  /**
   * A title without white space loses a trailing " - e-book" tag, with any
   * number of dashes after the 'e'.
   */
  lemma RemoveEbookSuffix(title: string, dashes: nat)
    requires forall i :: 0 <= i < |title| ==> !IsSpace(title[i])
    ensures RemoveEditionTags(title + " - e" + Dashes(dashes) + "book") == title
  {
    var w := "e" + Dashes(dashes) + "book";
    assert w[0] == 'e';
    EbookWord(dashes);
    SpacedDashTag(w);
    assert EditionTagAt(" - " + w) == |" - " + w|;
    TagSuffix(title, w);
    Regroup(title, Dashes(dashes));
  }

  lemma Regroup(title: string, d: string)
    ensures title + " - e" + d + "book" == title + " - " + ("e" + d + "book")
  {
    assert " - e" == " - " + "e";
  }

  /** A title without white space loses a trailing " - audiobook" tag. */
  lemma RemoveAudiobookSuffix(title: string)
    requires forall i :: 0 <= i < |title| ==> !IsSpace(title[i])
    ensures RemoveEditionTags(title + " - " + "audiobook") == title
  {
    AudiobookWord();
    SpacedDashTag("audiobook");
    TagSuffix(title, "audiobook");
  }

  /** "audiobook" is a whole tag word. */
  lemma AudiobookWord()
    ensures TagWordAt("audiobook") == 9
  {
    var w := "audiobook";
    assert w[0] != 'e';
    assert StartsWith(w, "audiobook");
  }

  function Dashes(n: nat): (r: string)
    ensures |r| == n && forall i :: 0 <= i < n ==> r[i] == '-'
  {
    if n == 0 then "" else "-" + Dashes(n - 1)
  }

  lemma {:induction false} DashRunOf(n: nat, rest: string)
    requires rest == [] || rest[0] != '-'
    ensures DashRun(Dashes(n) + rest) == n
  {
    if n > 0 {
      assert (Dashes(n) + rest)[1..] == Dashes(n - 1) + rest;
      DashRunOf(n - 1, rest);
    } else {
      assert Dashes(n) + rest == rest;
    }
  }

  /** "e---book" is a whole tag word. */
  lemma EbookWord(dashes: nat)
    ensures TagWordAt("e" + Dashes(dashes) + "book") == dashes + 5
  {
    var w := "e" + Dashes(dashes) + "book";
    assert w[1..] == Dashes(dashes) + "book";
    DashRunOf(dashes, "book");
    assert w[1 + dashes..] == "book";
  }

  /**
   * `getFileType`: the leading run of `[a-zA-Z0-9]` of the button text
   * (which `trim` leaves as it is), with "mp3" in any case turned into
   * "zip". Without such a run `match` yields null and reading `[0]` throws.
   */
  function GetFileType(text: string): (r: Option<string>)
    ensures r.Some? <==> text != [] && IsAlnum(text[0])
    ensures r.Some? ==> |r.value| > 0 && forall i :: 0 <= i < |r.value| ==> IsAlnum(r.value[i])
  {
    var n := AlnumRun(text);
    if n == 0 then None
    else
      var run := text[..n];
      if Lower(run) == "mp3" then Some("zip") else Some(run)
  }

  /** The file type of a button reading `<name><rest>` is the name, unless the name is "mp3" in some case. */
  lemma GetFileTypeOf(name: string, rest: string)
    requires name != [] && forall i :: 0 <= i < |name| ==> IsAlnum(name[i])
    requires rest == [] || !IsAlnum(rest[0])
    ensures GetFileType(name + rest) == Some(if Lower(name) == "mp3" then "zip" else name)
  {
    AlnumRunOf(name, rest);
    assert (name + rest)[..|name|] == name;
  }

  lemma {:induction false} AlnumRunOf(name: string, rest: string)
    requires forall i :: 0 <= i < |name| ==> IsAlnum(name[i])
    requires rest == [] || !IsAlnum(rest[0])
    ensures AlnumRun(name + rest) == |name|
  {
    if name != [] {
      assert (name + rest)[1..] == name[1..] + rest;
      AlnumRunOf(name[1..], rest);
    } else {
      assert name + rest == rest;
    }
  }

  /** One button: its file type and its href with white-space runs collapsed and trimmed. */
  function DownloadOf(b: Button): Option<Download> {
    match GetFileType(b.text)
    case None => None
    case Some(ft) => Some(Download(ft, Trim(CollapseSpaces(b.href))))
  }

  /**
   * A page link: the main page address glued to the href, white-space runs
   * collapsed, trimmed. `getPageUrls` collects these without repeats.
   */
  function PageUrl(mainPageUrl: string): string -> string {
    href => Trim(CollapseSpaces(mainPageUrl + href))
  }

  /**
   * `getProductDownloadParameters`: the first run of dots followed by '?'
   * is removed, the rest split on '&', and the values of fields 0 and 2
   * taken. A link with fewer than three fields throws; a field without '='
   * has an undefined value, which the address template spells out.
   */
  function GetProductDownloadParameters(link: string): (r: Option<FileParams>)
    ensures r.Some? <==> |SplitOn(DropDotsQuery(link), "&")| >= 3
  {
    var params := SplitOn(DropDotsQuery(link), "&");
    if |params| < 3 then None else Some(FileParams(ValueOf(params[0]), ValueOf(params[2])))
  }

  /** `p.split('=')[1]`: the text after the first '=' up to the next one. */
  function ValueOf(p: string): string {
    var kv := SplitOn(p, "=");
    if |kv| >= 2 then kv[1] else "undefined"
  }

  /** The number of trailing '.' of `s`. */
  function DotTail(s: string): (n: nat)
    ensures n <= |s|
    ensures forall i :: |s| - n <= i < |s| ==> s[i] == '.'
  {
    if s != [] && s[|s| - 1] == '.' then 1 + DotTail(s[..|s| - 1]) else 0
  }

  /**
   * `s.replace(/[.]+\?/, '')`: the leftmost match starts the run of dots
   * that ends right before the first ".?", and runs through the '?'.
   */
  function DropDotsQuery(s: string): (r: string)
    ensures !Contains(s, ".?") ==> r == s
  {
    var j := IndexOf(s, ".?");
    if j < 0 then s else
      var i := j + 1 - DotTail(s[..j + 1]);
      s[..i] + s[j + 2..]
  }

  /**
   * A link `k0=id&m&k2=tid`, none of whose parts holds '&' or (besides
   * `m`) '=', and which holds no ".?", yields `id` and `tid`.
   */
  lemma ParametersRoundTrip(k0: string, id: string, m: string, k2: string, tid: string)
    requires forall c :: c in k0 + id + k2 + tid ==> c != '&' && c != '='
    requires '&' !in m
    requires !Contains(k0 + "=" + id + "&" + m + "&" + k2 + "=" + tid, ".?")
    ensures GetProductDownloadParameters(k0 + "=" + id + "&" + m + "&" + k2 + "=" + tid) == Some(FileParams(id, tid))
  {
    var a := k0 + "=" + id;
    var b := k2 + "=" + tid;
    var link := k0 + "=" + id + "&" + m + "&" + k2 + "=" + tid;
    assert DropDotsQuery(link) == link;
    assert SplitOn(link, "&") == [a, m, b] by {
      assert [a, m, b][1..] == [m, b] && [m, b][1..] == [b];
      assert Join([m, b], "&") == m + "&" + b;
      assert link == a + "&" + (m + "&" + b);
      forall c | c in k0 || c in id || c in k2 || c in tid ensures c in k0 + id + k2 + tid { }
      SplitJoin([a, m, b], "&");
    }
    assert ValueOf(a) == id by {
      assert Join([k0, id], "=") == a;
      forall c | c in k0 || c in id ensures c in k0 + id + k2 + tid { }
      SplitJoin([k0, id], "=");
    }
    assert ValueOf(b) == tid by {
      assert Join([k2, tid], "=") == b;
      forall c | c in k2 || c in tid ensures c in k0 + id + k2 + tid { }
      SplitJoin([k2, tid], "=");
    }
  }

  // ---------------------------------------------------------------- products

  /** The download address: the main page, '/', the link, with repeated slashes collapsed. */
  function DownloadUrl(mainPageUrl: string, link: string): (u: string)
    ensures SlashPairsAfterColon(u)
    ensures Without(u, '/') == Without(mainPageUrl + "/" + link, '/')
  {
    CollapseSlashesDoubles(mainPageUrl + "/" + link);
    CollapseSlashesKeepsText(mainPageUrl + "/" + link);
    CollapseSlashes(mainPageUrl + "/" + link)
  }

  /**
   * `downloadProduct`: the book's folder `booksDir/<name>` is made if
   * missing; an existing non-empty file is kept, and otherwise the file is
   * downloaded with no size probe.
   */
  function DownloadProduct(s: State, st: Settings, acct: Account, bookName: string, ext: string, link: string): (r: Step<()>)
    ensures !r.out.Stalled?
    ensures var name := st.pathName(bookName);
      var dir := st.booksDir + "/" + name;
      Files.DirectoryExists(r.st.disk, dir)
      && (Files.ElementExists(s.disk, dir, name + "." + ext) ==> r == Step(Done(()), EnsureDirectory(s, dir)))
      && (!Files.ElementExists(s.disk, dir, name + "." + ext) ==>
            r == DownloadFile(EnsureDirectory(s, dir), DownloadUrl(acct.mainPageUrl, link), dir, name + "." + ext, true))
  {
    var name := st.pathName(bookName);
    var dir := st.booksDir + "/" + name;
    var s1 := EnsureDirectory(s, dir);
    if Files.ElementExists(s1.disk, dir, name + "." + ext) then Step(Done(()), s1)
    else
      var r := DownloadFile(s1, DownloadUrl(acct.mainPageUrl, link), dir, name + "." + ext, true);
      assert Files.DirectoryExists(r.st.disk, dir) by {
        assert r.st.disk.dirs == s1.disk.dirs;
      }
      r
  }

  /** After polling, the download runs only when the file is reported ready. */
  function AfterPoll(p: Polled, st: Settings, acct: Account, bookName: string, d: Download): Step<()> {
    match p.out
    case Done(g) =>
      if g.ready then DownloadProduct(p.st, st, acct, bookName, d.fileType, d.downloadLink)
      else Step(Done(()), p.st)
    case Failed(e) => Step(Failed(e), p.st)
    case Stalled => Step(Stalled, p.st)
  }

  /**
   * The body of the `try` for one file: read its parameters, ask for its
   * status, and switch: '1' prepares and polls, '2' polls, '3' downloads at
   * once, anything else is only logged.
   */
  function TryDownload(s: State, st: Settings, acct: Account, cfg: Config, bookName: string, d: Download): (r: Step<()>)
    ensures !r.out.Stalled?
  {
    match GetProductDownloadParameters(d.downloadLink)
    case None => Step(Failed("TypeError: missing download parameter"), s)
    case Some(p) =>
      var status := CallService(s, cfg.productStatusServiceUrl, p.fileId, p.fileTypeId);
      var url := PrepareServiceUrl(cfg.productStatusServiceUrl, p.fileId, p.fileTypeId);
      match status.out
      case Done(v) =>
        if v == "1" then
          var prep := CallService(status.st, cfg.prepareProductServiceUrl, p.fileId, p.fileTypeId);
          if prep.out.Done? then AfterPoll(Poll(prep.st, url), st, acct, bookName, d)
          else Step(Failed(prep.out.reason), prep.st)
        else if v == "2" then AfterPoll(Poll(status.st, url), st, acct, bookName, d)
        else if v == "3" then DownloadProduct(status.st, st, acct, bookName, d.fileType, d.downloadLink)
        else Step(Done(()), status.st)
      case Failed(e) => Step(Failed(e), status.st)
      case Stalled => Step(Stalled, status.st)
  }

  /**
   * One file of a row: skipped when `booksDir + name` (no separator)
   * already holds it, and otherwise tried; whatever fails inside the `try`
   * is logged, so the step always resolves.
   */
  function DownloadStep(s: State, st: Settings, acct: Account, cfg: Config, title: string, authors: string, d: Download): (r: Step<()>)
    ensures r.out == Done(())
  {
    var bookName := title + " - " + authors;
    var name := st.pathName(bookName);
    if Files.ElementExists(s.disk, st.booksDir + name, name + "." + d.fileType) then Step(Done(()), s)
    else Step(Done(()), TryDownload(s, st, acct, cfg, bookName, d).st)
  }

  /** The files of a row in order. */
  function DownloadsStep(s: State, st: Settings, acct: Account, cfg: Config, title: string, authors: string, ds: seq<Download>): (r: Step<()>)
    ensures r.out == Done(())
    decreases |ds|
  {
    if ds == [] then Step(Done(()), s)
    else DownloadsStep(DownloadStep(s, st, acct, cfg, title, authors, ds[0]).st, st, acct, cfg, title, authors, ds[1..])
  }

  /** One row: a button without a file type throws outside any `try`. */
  function RowStep(s: State, st: Settings, acct: Account, cfg: Config, row: Row): Step<()> {
    match AllSome(row.buttons, DownloadOf)
    case None => Step(Failed("TypeError: no file type"), s)
    case Some(ds) => DownloadsStep(s, st, acct, cfg, GetTitle(row.titleText), GetAuthors(row.authorsText), ds)
  }

  /** `downloadProductsFromPage`: the rows in order, stopping at the first that throws. */
  function RowsStep(s: State, st: Settings, acct: Account, cfg: Config, rows: seq<Row>): Step<()>
    decreases |rows|
  {
    if rows == [] then Step(Done(()), s)
    else
      var r := RowStep(s, st, acct, cfg, rows[0]);
      if r.out.Done? then RowsStep(r.st, st, acct, cfg, rows[1..]) else r
  }

  /** One later page, fetched after a jittered second, then its rows. */
  function PageStep(s: State, st: Settings, acct: Account, cfg: Config, scrape: string -> Shelf, url: string): Step<()> {
    var p := GetPageBody(s, url, ONE_SECOND, false);
    match p.out
    case Done(resp) => RowsStep(p.st, st, acct, cfg, scrape(resp.body).rows)
    case Failed(e) => Step(Failed(e), p.st)
    case Stalled => Step(Stalled, p.st)
  }

  /** The later pages in order; a failure ends the run. */
  function PagesStep(s: State, st: Settings, acct: Account, cfg: Config, scrape: string -> Shelf, urls: seq<string>): Step<()>
    decreases |urls|
  {
    if urls == [] then Step(Done(()), s)
    else
      var r := PageStep(s, st, acct, cfg, scrape, urls[0]);
      if r.out.Done? then PagesStep(r.st, st, acct, cfg, scrape, urls[1..]) else r
  }

  /**
   * `getProducts`: the first page's rows, then every page link of the
   * first page once, in order. `scrape` stands for the selectors that read
   * a page body.
   */
  function Products(s: State, st: Settings, acct: Account, cfg: Config, scrape: string -> Shelf, body: string): Step<()> {
    var shelf := scrape(body);
    var r := RowsStep(s, st, acct, cfg, shelf.rows);
    if r.out.Done? then PagesStep(r.st, st, acct, cfg, scrape, Dedup(Map(shelf.pageHrefs, PageUrl(acct.mainPageUrl)))) else r
  }

  /** The body of the `try` for one file: read the status, then switch on it. */
  method TryProduct(s: State, st: Settings, acct: Account, cfg: Config, bookName: string, d: Download)
    returns (after: State)
    ensures after == TryDownload(s, st, acct, cfg, bookName, d).st
  {
    var params := GetProductDownloadParameters(d.downloadLink);
    if params.None? {
      return s;
    }
    var p := params.value;
    var status := CallService(s, cfg.productStatusServiceUrl, p.fileId, p.fileTypeId);
    after := status.st;
    if status.out == Done("1") {
      var prep := CallService(after, cfg.prepareProductServiceUrl, p.fileId, p.fileTypeId);
      after := prep.st;
      if prep.out.Done? {
        var out, ps, count := WaitForProductToBeGenerated(prep.st, cfg.productStatusServiceUrl, p.fileId, p.fileTypeId);
        after := AfterPoll(Polled(out, ps, count), st, acct, bookName, d).st;
      }
    } else if status.out == Done("2") {
      var out, ps, count := WaitForProductToBeGenerated(after, cfg.productStatusServiceUrl, p.fileId, p.fileTypeId);
      after := AfterPoll(Polled(out, ps, count), st, acct, bookName, d).st;
    } else if status.out == Done("3") {
      after := DownloadProduct(after, st, acct, bookName, d.fileType, d.downloadLink).st;
    }
  }

  /** One file, as the statement sequence of the inner loop body. */
  method ProcessDownload(s: State, st: Settings, acct: Account, cfg: Config, title: string, authors: string, d: Download)
    returns (r: Step<()>)
    ensures r == DownloadStep(s, st, acct, cfg, title, authors, d)
  {
    var bookName := title + " - " + authors;
    var name := st.pathName(bookName);
    if Files.ElementExists(s.disk, st.booksDir + name, name + "." + d.fileType) {
      return Step(Done(()), s);
    }
    var after := TryProduct(s, st, acct, cfg, bookName, d);
    r := Step(Done(()), after);
  }

  /** The inner loop of `downloadProductsFromPage` over the files of one row. */
  method ProcessDownloads(s: State, st: Settings, acct: Account, cfg: Config, title: string, authors: string, ds: seq<Download>)
    returns (step: Step<()>)
    ensures step == DownloadsStep(s, st, acct, cfg, title, authors, ds)
  {
    step := Step(Done(()), s);
    var j := 0;
    while j < |ds|
      invariant 0 <= j <= |ds|
      invariant step.out == Done(())
      invariant DownloadsStep(s, st, acct, cfg, title, authors, ds) == DownloadsStep(step.st, st, acct, cfg, title, authors, ds[j..])
    {
      assert ds[j..][0] == ds[j] && ds[j..][1..] == ds[j + 1..];
      step := ProcessDownload(step.st, st, acct, cfg, title, authors, ds[j]);
      j := j + 1;
    }
    assert ds[j..] == [];
  }

  /** `downloadProductsFromPage`: the loop over the rows of one page. */
  method DownloadProductsFromPage(s: State, st: Settings, acct: Account, cfg: Config, rows: seq<Row>) returns (step: Step<()>)
    ensures step == RowsStep(s, st, acct, cfg, rows)
  {
    step := Step(Done(()), s);
    var i := 0;
    while i < |rows| && step.out.Done?
      invariant 0 <= i <= |rows|
      invariant step.out.Done? ==> RowsStep(s, st, acct, cfg, rows) == RowsStep(step.st, st, acct, cfg, rows[i..])
      invariant !step.out.Done? ==> RowsStep(s, st, acct, cfg, rows) == step
    {
      assert rows[i..][0] == rows[i] && rows[i..][1..] == rows[i + 1..];
      var ds := CollectAll(rows[i].buttons, DownloadOf);
      if ds.None? {
        step := Step(Failed("TypeError: no file type"), step.st);
      } else {
        step := ProcessDownloads(step.st, st, acct, cfg, GetTitle(rows[i].titleText), GetAuthors(rows[i].authorsText), ds.value);
      }
      i := i + 1;
    }
    if step.out.Done? {
      assert rows[i..] == [];
      assert step.out.value == ();
    }
  }

  /** One iteration of the page loop of `getProducts`. */
  method ProcessPage(s: State, st: Settings, acct: Account, cfg: Config, scrape: string -> Shelf, url: string)
    returns (r: Step<()>)
    ensures r == PageStep(s, st, acct, cfg, scrape, url)
  {
    var page := GetPageBody(s, url, ONE_SECOND, false);
    if page.out.Failed? {
      return Step(Failed(page.out.reason), page.st);
    } else if page.out.Stalled? {
      return Step(Stalled, page.st);
    }
    r := DownloadProductsFromPage(page.st, st, acct, cfg, scrape(page.out.value.body).rows);
  }

  /** The page loop of `getProducts`, stopping at the first page that throws. */
  method ProcessPages(s: State, st: Settings, acct: Account, cfg: Config, scrape: string -> Shelf, urls: seq<string>)
    returns (r: Step<()>)
    ensures r == PagesStep(s, st, acct, cfg, scrape, urls)
  {
    r := Step(Done(()), s);
    var i := 0;
    while i < |urls| && r.out.Done?
      invariant 0 <= i <= |urls|
      invariant r.out.Done? ==> PagesStep(s, st, acct, cfg, scrape, urls) == PagesStep(r.st, st, acct, cfg, scrape, urls[i..])
      invariant !r.out.Done? ==> PagesStep(s, st, acct, cfg, scrape, urls) == r
    {
      assert urls[i..][0] == urls[i] && urls[i..][1..] == urls[i + 1..];
      r := ProcessPage(r.st, st, acct, cfg, scrape, urls[i]);
      i := i + 1;
    }
    if r.out.Done? {
      assert urls[i..] == [];
      assert r.out.value == ();
    }
  }

  /** `getProducts`: the first page, then the page links of the first page in order. */
  method GetProducts(s0: State, st: Settings, acct: Account, cfg: Config, scrape: string -> Shelf, body: string)
    returns (r: Step<()>)
    ensures r == Products(s0, st, acct, cfg, scrape, body)
  {
    var shelf := scrape(body);
    var pageUrls := CollectDistinct(shelf.pageHrefs, PageUrl(acct.mainPageUrl));
    r := DownloadProductsFromPage(s0, st, acct, cfg, shelf.rows);
    if r.out.Done? {
      r := ProcessPages(r.st, st, acct, cfg, scrape, pageUrls);
    }
  }

  // ---------------------------------------------------------------- properties

  /**
   * A file already present under `booksDir + name` is skipped with no
   * request, no pause and no write.
   */
  lemma PresentFileSkipped(s: State, st: Settings, acct: Account, cfg: Config, title: string, authors: string, d: Download)
    requires var name := st.pathName(title + " - " + authors);
      Files.ElementExists(s.disk, st.booksDir + name, name + "." + d.fileType)
    ensures DownloadStep(s, st, acct, cfg, title, authors, d) == Step(Done(()), s)
  {
  }

  /**
   * An unrecognised status sends the status request and nothing else, and
   * writes nothing; a status call that fails does the same.
   */
  lemma OtherStatusOnlyLogged(s: State, st: Settings, acct: Account, cfg: Config, bookName: string, d: Download, p: FileParams)
    requires GetProductDownloadParameters(d.downloadLink) == Some(p)
    requires var v := ServiceValue(ReplyAt(s.replies, 0));
      !(v == Done("1") || v == Done("2") || v == Done("3"))
    ensures var r := TryDownload(s, st, acct, cfg, bookName, d);
      r.st.disk == s.disk && r.st.replies == Drop(s.replies, 1)
      && r.st.trace == s.trace + [Wait(ONE_SECOND, true), Request(GET, PrepareServiceUrl(cfg.productStatusServiceUrl, p.fileId, p.fileTypeId), Plain)]
  {
  }

  /**
   * A ready status downloads at once: no preparation and no poll come
   * between the status call and the download.
   */
  lemma ReadyStatusDownloadsAtOnce(s: State, st: Settings, acct: Account, cfg: Config, bookName: string, d: Download, p: FileParams)
    requires GetProductDownloadParameters(d.downloadLink) == Some(p)
    requires ServiceValue(ReplyAt(s.replies, 0)) == Done("3")
    ensures TryDownload(s, st, acct, cfg, bookName, d)
      == DownloadProduct(CallService(s, cfg.productStatusServiceUrl, p.fileId, p.fileTypeId).st, st, acct, bookName, d.fileType, d.downloadLink)
  {
  }

  /**
   * '1' prepares the file with one call to the preparation service, then
   * polls; '2' polls with no preparation.
   */
  lemma PendingStatusPolls(s: State, st: Settings, acct: Account, cfg: Config, bookName: string, d: Download, p: FileParams)
    requires GetProductDownloadParameters(d.downloadLink) == Some(p)
    ensures var status := CallService(s, cfg.productStatusServiceUrl, p.fileId, p.fileTypeId);
      var url := PrepareServiceUrl(cfg.productStatusServiceUrl, p.fileId, p.fileTypeId);
      var prep := CallService(status.st, cfg.prepareProductServiceUrl, p.fileId, p.fileTypeId);
      (status.out == Done("2") ==> TryDownload(s, st, acct, cfg, bookName, d) == AfterPoll(Poll(status.st, url), st, acct, bookName, d))
      && (status.out == Done("1") && prep.out.Done? ==>
            TryDownload(s, st, acct, cfg, bookName, d) == AfterPoll(Poll(prep.st, url), st, acct, bookName, d))
  {
  }

  /** A poll that does not end ready writes nothing: the disk is as before and no folder is made. */
  lemma NotReadyWritesNothing(p: Polled, st: Settings, acct: Account, bookName: string, d: Download)
    requires !(p.out.Done? && p.out.value.ready)
    ensures AfterPoll(p, st, acct, bookName, d).st == p.st
  {
  }

  /** Files are written only once the service has reported them ready ('3'), directly or by polling. */
  lemma WritesOnlyWhenReady(s: State, st: Settings, acct: Account, cfg: Config, bookName: string, d: Download, p: FileParams)
    requires GetProductDownloadParameters(d.downloadLink) == Some(p)
    requires TryDownload(s, st, acct, cfg, bookName, d).st.disk != s.disk
    ensures var status := CallService(s, cfg.productStatusServiceUrl, p.fileId, p.fileTypeId);
      var url := PrepareServiceUrl(cfg.productStatusServiceUrl, p.fileId, p.fileTypeId);
      var prep := CallService(status.st, cfg.prepareProductServiceUrl, p.fileId, p.fileTypeId);
      status.out == Done("3")
      || (status.out == Done("2") && Poll(status.st, url).out.Done? && Poll(status.st, url).out.value.ready)
      || (status.out == Done("1") && Poll(prep.st, url).out.Done? && Poll(prep.st, url).out.value.ready)
  {
    var status := CallService(s, cfg.productStatusServiceUrl, p.fileId, p.fileTypeId);
    var url := PrepareServiceUrl(cfg.productStatusServiceUrl, p.fileId, p.fileTypeId);
    var prep := CallService(status.st, cfg.prepareProductServiceUrl, p.fileId, p.fileTypeId);
    if status.out == Done("2") {
      PollShape(status.st, url);
    } else if status.out == Done("1") && prep.out.Done? {
      PollShape(prep.st, url);
    }
  }
}
