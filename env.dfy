/**
 * The world an adapter talks to, as one value: the disk, the replies the
 * bookstore's servers will give to the adapter's next requests, and the
 * trace of everything the adapter has done so far (requests, pauses,
 * writes, new directories). Every step of an adapter takes a state and
 * returns the next one, so a run is a function of the replies.
 */
module Env {
  import opened Wrappers
  import Files

  /**
   * What a reply decodes to where the adapter parses it (XML, JSON or an
   * HTML page read through a selector): named fields, a list of records
   * and a list of values. The adapters' selectors and parsers are not part
   * of this model; a reply carries what they would extract.
   */
  datatype Doc =
    | Missing
    | Unparsable
    | Decoded(fields: map<string, string>, records: seq<map<string, string>>, values: seq<string>)

  datatype Response = Response(finalUrl: string, status: nat, body: string, contentLength: Option<nat>, doc: Doc)

  /**
   * The server answered (any status the HTTP client did not reject), or the
   * request failed. A failure the client raised for an answer it rejects
   * (a status outside 2xx) carries that status, and `received` is the size
   * of that answer's body; `status` is 0 when no answer arrived at all, and
   * then `received` is what a stream had got before the connection broke.
   */
  datatype Reply = Answer(response: Response) | TransportError(reason: string, received: nat, status: nat)

  datatype Verb = GET | POST | HEAD | OPTIONS

  /**
   * What a request carries besides its verb and address: whether the URL is
   * passed through `encodeURI`, the bearer token, the form or JSON fields of
   * its body, the list fields of a form sent as one pair per element, and
   * whether the client follows redirects (it does by default).
   */
  datatype Options = Options(encoded: bool, bearer: string, form: map<string, string>,
                             repeated: map<string, seq<string>>, followRedirect: bool)

  const Plain := Options(false, "", map[], map[], true)

  function FormOf(form: map<string, string>): Options {
    Plain.(form := form)
  }

  /** What a request carries when it sends the authorisation header for `token`. */
  function BearerOf(token: string): Options {
    Plain.(bearer := token)
  }

  datatype Event =
    | Request(verb: Verb, url: string, opts: Options)
    | Wait(ms: nat, jittered: bool)
    | Write(path: string, size: nat)
    | MakeDir(path: string)

  datatype State = State(disk: Files.Disk, replies: seq<Reply>, trace: seq<Event>)

  /** The result of an asynchronous step together with the state it leaves. */
  datatype Step<+T> = Step(out: Outcome<T>, st: State)

  /** A request's reply together with the state after it. */
  datatype Answered = Answered(reply: Reply, st: State)

  /** The reply at position `i` of the queue; past its end every request fails. */
  function ReplyAt(rs: seq<Reply>, i: nat): Reply {
    if i < |rs| then rs[i] else TransportError("no reply", 0, 0)
  }

  /** The queue after `n` requests have taken their replies. */
  function Drop(rs: seq<Reply>, n: nat): (r: seq<Reply>)
    ensures |r| == if n <= |rs| then |rs| - n else 0
  {
    if n <= |rs| then rs[n..] else []
  }

  /** After `n` requests, the `i`-th next reply is the one that was `n + i` places ahead. */
  lemma ReplyAtDrop(rs: seq<Reply>, n: nat, i: nat)
    ensures ReplyAt(Drop(rs, n), i) == ReplyAt(rs, n + i)
  {
  }

  lemma DropDrop(rs: seq<Reply>, n: nat)
    ensures Drop(Drop(rs, 1), n) == Drop(rs, n + 1)
  {
  }

  lemma DropOneMore(rs: seq<Reply>, n: nat)
    ensures Drop(Drop(rs, n), 1) == Drop(rs, n + 1)
  {
  }

  lemma DropZero(rs: seq<Reply>)
    ensures Drop(rs, 0) == rs
  {
    if |rs| > 0 { assert rs[0..] == rs; }
  }

  /** Sends one request: it is logged, and the next queued reply answers it. */
  function Send(s: State, verb: Verb, url: string, opts: Options): (a: Answered)
    ensures a.reply == ReplyAt(s.replies, 0)
    ensures a.st.disk == s.disk
    ensures a.st.replies == Drop(s.replies, 1)
    ensures a.st.trace == s.trace + [Request(verb, url, opts)]
  {
    Answered(ReplyAt(s.replies, 0), s.(replies := Drop(s.replies, 1), trace := s.trace + [Request(verb, url, opts)]))
  }

  function Get(s: State, url: string): Answered {
    Send(s, GET, url, Plain)
  }

  function Post(s: State, url: string, form: map<string, string>): Answered {
    Send(s, POST, url, FormOf(form))
  }

  /** `delay(ms)` (a random wait between ms/2 and ms) or `delayExactly(ms)`. */
  function Pause(s: State, ms: nat, jittered: bool): State {
    s.(trace := s.trace + [Wait(ms, jittered)])
  }

  function WriteFile(s: State, path: string, size: nat): State {
    s.(disk := Files.Write(s.disk, path, size), trace := s.trace + [Write(path, size)])
  }

  function MakeDirectory(s: State, path: string): State {
    s.(disk := Files.MakeDir(s.disk, path), trace := s.trace + [MakeDir(path)])
  }

  /** How many bytes a streamed download of this reply leaves in its file. */
  function StreamedSize(r: Reply): nat {
    if r.Answer? then |r.response.body| else r.received
  }

  /** What `JSON.parse` throws on text that is not JSON. */
  const JSON_ERROR := "SyntaxError: Unexpected token in JSON"

  /**
   * A reply whose body reaches a stream piped from its request: any answer,
   * and also one the client rejects for its status, since piping bypasses
   * the client's status check; only a connection that broke sends no
   * finished body.
   */
  predicate Streams(r: Reply) {
    r.Answer? || r.status > 0
  }

  /**
   * A streamed download, a request piped into a file: the file is created
   * at once and grows as the body arrives, and the step resolves once the
   * whole body is written, whatever the answer's status, so an error page
   * is kept as the file. A broken connection leaves the bytes received so
   * far, and since only the file stream's errors are listened to, the step
   * never settles.
   */
  function StreamTo(s: State, verb: Verb, url: string, opts: Options, path: string): (r: Step<()>)
    ensures !r.out.Failed?
    ensures r.out.Done? <==> Streams(ReplyAt(s.replies, 0))
    ensures r.st.replies == Drop(s.replies, 1)
    ensures var size := StreamedSize(ReplyAt(s.replies, 0));
      r.st.disk == Files.Write(s.disk, path, size)
      && r.st.trace == s.trace + [Request(verb, url, opts), Write(path, size)]
  {
    var a := Send(s, verb, url, opts);
    match a.reply
    case Answer(resp) => Step(Done(()), WriteFile(a.st, path, |resp.body|))
    case TransportError(_, received, status) =>
      if status > 0 then Step(Done(()), WriteFile(a.st, path, received))
      else Step(Stalled, WriteFile(a.st, path, received))
  }

  /**
   * An answer rejected for its status still resolves a stream, and a
   * non-empty error page then counts as the file being present, so a later
   * run skips it.
   */
  lemma ErrorPageKept(s: State, verb: Verb, url: string, opts: Options, dir: string, name: string)
    requires ReplyAt(s.replies, 0).TransportError? && ReplyAt(s.replies, 0).status > 0
    requires ReplyAt(s.replies, 0).received > 0
    ensures var r := StreamTo(s, verb, url, opts, dir + "/" + name);
      r.out.Done? && Files.ElementExists(r.st.disk, dir, name)
  {
    Files.WrittenFileExists(s.disk, dir, name, ReplyAt(s.replies, 0).received);
  }

  /** The named field of a decoded reply, if the reply decoded and holds it. */
  function Field(r: Reply, name: string): Option<string> {
    if r.Answer? && r.response.doc.Decoded? && name in r.response.doc.fields
    then Some(r.response.doc.fields[name]) else None
  }

  /**
   * The decoded field `name` of a reply that the adapter reads with no
   * guard: a failed request rejects with its error, and a reply that does
   * not decode or lacks the field rejects with a type error.
   */
  function Read(r: Reply, name: string): (o: Outcome<string>)
    ensures !o.Stalled?
    ensures o.Done? <==> Field(r, name).Some?
    ensures o.Done? ==> o.value == Field(r, name).value
    ensures r.TransportError? ==> o == Failed(r.reason)
  {
    match r
    case TransportError(e, _, _) => Failed(e)
    case Answer(resp) =>
      if resp.doc.Decoded? && name in resp.doc.fields then Done(resp.doc.fields[name])
      else Failed("TypeError: cannot read " + name)
  }

  /** How many requests a trace holds. */
  function Requests(t: seq<Event>): nat {
    if t == [] then 0 else Requests(t[..|t| - 1]) + (if t[|t| - 1].Request? then 1 else 0)
  }

  lemma RequestsAppend(a: seq<Event>, b: seq<Event>)
    ensures Requests(a + b) == Requests(a) + Requests(b)
    decreases |b|
  {
    if b != [] {
      assert (a + b)[..|a + b| - 1] == a + b[..|b| - 1];
      RequestsAppend(a, b[..|b| - 1]);
    } else {
      assert a + b == a;
    }
  }
}
