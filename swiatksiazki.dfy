/**
 * The Swiat Ksiazki adapter: a form login carrying the `form_key` of the
 * login page, and a list of downloadable products whose titles and authors
 * are cleaned of parenthesised tags, each with buttons whose text names the
 * format and whose target is the file.
 */
module SwiatKsiazki {
  import opened Wrappers
  import opened Text
  import Lists
  import Files
  import opened Env
  import opened Bookstore

  const NOT_LOGGED_IN_MARKER := "login"

  /** What reading a property of `undefined` throws. */
  const TYPE_ERROR := "TypeError: Cannot read property of undefined"

  // ---------------------------------------------------------------- login

  /**
   * The login form: the nested `login` object is sent as bracketed fields,
   * `send: null` as an empty field, and an undefined `form_key` is left out.
   */
  function LoginForm(acct: Account, formKey: Option<string>): (f: map<string, string>)
    ensures "form_key" in f <==> formKey.Some?
    ensures formKey.Some? ==> f["form_key"] == formKey.value
    ensures "login[username]" in f && f["login[username]"] == acct.login
    ensures "login[password]" in f && f["login[password]"] == acct.password
  {
    var base := map["login[username]" := acct.login, "login[password]" := acct.password, "send" := ""];
    if formKey.Some? then base["form_key" := formKey.value] else base
  }

  /**
   * `logIn`: the login form is visited (its failure rejects) and its
   * `form_key` read (`formKey` stands for the selector), then the form is
   * posted; logged in exactly when the POST's final address lacks "login".
   * The POST has no rejection handler, so its failure leaves the login
   * pending for ever.
   */
  function LogIn(s: State, acct: Account, formKey: string -> Option<string>): (r: Step<string>)
    ensures r.st.disk == s.disk
    ensures ReplyAt(s.replies, 0).TransportError? ==> r.out == Failed(ReplyAt(s.replies, 0).reason)
    ensures r.out.Stalled? <==> ReplyAt(s.replies, 0).Answer? && ReplyAt(s.replies, 1).TransportError?
    ensures r.out.Done? <==>
      ReplyAt(s.replies, 0).Answer? && ReplyAt(s.replies, 1).Answer?
      && MarkerAbsent(ReplyAt(s.replies, 1).response.finalUrl, NOT_LOGGED_IN_MARKER)
    ensures r.out.Done? ==> r.out.value == ReplyAt(s.replies, 1).response.body
    ensures r.out.Failed? && ReplyAt(s.replies, 0).Answer? ==> r.out.reason == "Could not log in as " + acct.login
    ensures ReplyAt(s.replies, 0).Answer? ==>
      r.st.trace == s.trace + [Wait(0, true), Request(GET, acct.loginFormUrl, Plain), Wait(3 * ONE_SECOND, false),
                               Request(POST, acct.loginServiceUrl,
                                       FormOf(LoginForm(acct, formKey(ReplyAt(s.replies, 0).response.body))))]
  {
    var v := VisitLoginForm(s, acct.loginFormUrl);
    if !v.out.Done? then Step(Failed(v.out.reason), v.st)
    else
      ReplyAtDrop(s.replies, 1, 0);
      var p := Post(v.st, acct.loginServiceUrl, LoginForm(acct, formKey(v.out.value.body)));
      match p.reply
      case TransportError(_, _, _) => Step(Stalled, p.st)
      case Answer(resp) =>
        if MarkerAbsent(resp.finalUrl, NOT_LOGGED_IN_MARKER) then Step(Done(resp.body), p.st)
        else Step(Failed(Mention("Could not log in as ", acct.login, "")), p.st)
  }

  // ---------------------------------------------------------------- titles

  /** The class `[a-z-]`. */
  predicate IsTagChar(c: char) {
    'a' <= c <= 'z' || c == '-'
  }

  /** A character the cleanup can remove: a parenthesis, a tag character or a double quote. */
  predicate Noise(c: char) {
    c == '(' || c == ')' || IsTagChar(c) || c == '"'
  }

  /** The number of leading tag characters. */
  function TagRun(s: string): (n: nat)
    ensures n <= |s|
    ensures forall i :: 0 <= i < n ==> IsTagChar(s[i])
    ensures n < |s| ==> !IsTagChar(s[n])
  {
    if s != [] && IsTagChar(s[0]) then 1 + TagRun(s[1..]) else 0
  }

  /** The length of a match of `\([a-z-]+\)?` at the start of `s`, or 0 when there is none. */
  function TagAt(s: string): (n: nat)
    ensures n <= |s|
    ensures n > 0 ==> s[0] == '(' && n >= 2
    ensures forall i :: 0 <= i < n ==> Noise(s[i])
  {
    if s == [] || s[0] != '(' then 0
    else
      var k := TagRun(s[1..]);
      assert forall i :: 1 <= i <= k ==> s[i] == s[1..][i - 1];
      if k == 0 then 0
      else if 1 + k < |s| && s[1 + k] == ')' then k + 2
      else k + 1
  }

  /**
   * `s.replace(/\([a-z-]+\)?|"/g, '')` when `quotes`, and
   * `s.replace(/\([a-z-]+\)?/g, '')` otherwise: every tag such as
   * "(ebook)" goes, and with `quotes` every double quote.
   */
  function StripTags(s: string, quotes: bool): (r: string)
    ensures |r| <= |s|
    ensures quotes ==> '"' !in r
    decreases |s|
  {
    if s == [] then ""
    else
      var n := TagAt(s);
      if n > 0 then StripTags(s[n..], quotes)
      else if quotes && s[0] == '"' then StripTags(s[1..], quotes)
      else [s[0]] + StripTags(s[1..], quotes)
  }

  /** The characters of `s` the cleanup never removes, in order. */
  function Kept(s: string): seq<char>
    decreases |s|
  {
    if s == [] then [] else (if Noise(s[0]) then [] else [s[0]]) + Kept(s[1..])
  }

  lemma {:induction false} KeptAppend(a: string, b: string)
    ensures Kept(a + b) == Kept(a) + Kept(b)
    decreases |a|
  {
    if a != [] {
      assert (a + b)[0] == a[0] && (a + b)[1..] == a[1..] + b;
      KeptAppend(a[1..], b);
    } else {
      assert a + b == b;
    }
  }

  lemma {:induction false} KeptNoise(a: string)
    requires forall i :: 0 <= i < |a| ==> Noise(a[i])
    ensures Kept(a) == []
    decreases |a|
  {
    if a != [] {
      KeptNoise(a[1..]);
    }
  }

  /** Only tag characters, parentheses and quotes are removed: the rest of the text survives in order. */
  lemma {:induction false} StripKeepsText(s: string, quotes: bool)
    ensures Kept(StripTags(s, quotes)) == Kept(s)
    decreases |s|
  {
    if s != [] {
      var n := TagAt(s);
      if n > 0 {
        StripKeepsText(s[n..], quotes);
        assert s == s[..n] + s[n..];
        KeptAppend(s[..n], s[n..]);
        KeptNoise(s[..n]);
      } else {
        StripKeepsText(s[1..], quotes);
        if !(quotes && s[0] == '"') {
          KeptAppend([s[0]], StripTags(s[1..], quotes));
        }
      }
    }
  }

  /** Text with no parenthesis and no quote passes unchanged, before whatever follows it. */
  lemma {:induction false} StripPlainPrefix(a: string, rest: string, quotes: bool)
    requires '(' !in a && '"' !in a
    ensures StripTags(a + rest, quotes) == a + StripTags(rest, quotes)
    decreases |a|
  {
    if a != [] {
      assert (a + rest)[0] == a[0] && (a + rest)[1..] == a[1..] + rest;
      StripPlainPrefix(a[1..], rest, quotes);
    } else {
      assert a + rest == rest;
    }
  }

  /** A tag run followed by a closing parenthesis is exactly the run. */
  lemma {:induction false} TagRunOf(t: string, rest: string)
    requires forall i :: 0 <= i < |t| ==> IsTagChar(t[i])
    ensures TagRun(t + ")" + rest) == |t|
    decreases |t|
  {
    if t != [] {
      assert (t + ")" + rest)[1..] == t[1..] + ")" + rest;
      TagRunOf(t[1..], rest);
    }
  }

  /** A whole tag "(t)" at the start is removed with its parentheses. */
  lemma TagRemoved(t: string, rest: string, quotes: bool)
    requires t != [] && forall i :: 0 <= i < |t| ==> IsTagChar(t[i])
    ensures StripTags("(" + t + ")" + rest, quotes) == StripTags(rest, quotes)
  {
    var s := "(" + t + ")" + rest;
    assert s[1..] == t + ")" + rest;
    TagRunOf(t, rest);
    assert s[1 + |t|] == ')';
    assert s[|t| + 2..] == rest;
  }

  /** `getProducts`' title: tags and double quotes removed, then trimmed. */
  function ProductTitle(text: string): (r: string)
    ensures '"' !in r
  {
    var c := StripTags(text, true);
    TrimKeepsOut(c, '"');
    Trim(c)
  }

  /** `getProducts`' authors: tags removed, then trimmed. */
  function ProductAuthors(text: string): string {
    Trim(StripTags(text, false))
  }

  /** Trimming removes only white space from the ends, so it adds no character. */
  lemma TrimKeepsOut(s: string, c: char)
    requires c !in s
    ensures c !in Trim(s)
  {
    var t := TrimStart(s);
    assert t == s[|s| - |t|..];
    var e := TrimEnd(t);
    assert e == t[..|e|];
  }

  /** A trimmed title followed by " (tag)" comes out as the title alone. */
  lemma TitleWithTag(a: string, t: string)
    requires a != [] && Trimmed(a) && '(' !in a && '"' !in a
    requires t != [] && forall i :: 0 <= i < |t| ==> IsTagChar(t[i])
    ensures ProductTitle(a + " (" + t + ")") == a
  {
    assert a + " (" + t + ")" == (a + " ") + ("(" + t + ")" + "");
    StripPlainPrefix(a + " ", "(" + t + ")" + "", true);
    TagRemoved(t, "", true);
    assert StripTags(a + " (" + t + ")", true) == a + " ";
    TrimmedSpace(a);
  }

  /** Trimming a trimmed text with one blank after it gives the text back. */
  lemma TrimmedSpace(a: string)
    requires a != [] && Trimmed(a)
    ensures Trim(a + " ") == a
  {
    var s := a + " ";
    assert s[0] == a[0];
    assert TrimStart(s) == s;
    var e := TrimEnd(s);
    assert s[|a| - 1] == a[|a| - 1] && !IsSpace(s[|a| - 1]);
    assert |a| <= |e|;
    assert IsSpace(s[|a|]);
    assert |e| == |a|;
    assert e == s[..|a|] == a;
  }

  // ---------------------------------------------------------------- downloads

  /** A download button: the text of its first child, when that is text, and its `href`. */
  datatype Button = Button(textNode: Option<string>, href: string)

  datatype Download = Download(fileType: string, downloadLink: string)

  const FORMAT_NOISE: seq<string> := ["Pobierz", "\""]

  /** The format named by a button's text: every "Pobierz" and double quote removed, then trimmed. */
  function FileType(text: string): (r: string)
    ensures '"' !in r
  {
    var c := RemoveAll(text, FORMAT_NOISE);
    NoQuotesLeft(text);
    TrimKeepsOut(c, '"');
    Trim(c)
  }

  /** Global removal of the quote pattern leaves no quote. */
  lemma {:induction false} NoQuotesLeft(s: string)
    ensures '"' !in RemoveAll(s, FORMAT_NOISE)
    decreases |s|
  {
    if s != [] {
      var f := FirstPrefix(s, FORMAT_NOISE, 0);
      if f.Some? {
        NoQuotesLeft(s[|FORMAT_NOISE[f.value]|..]);
      } else {
        assert !StartsWith(s, FORMAT_NOISE[1]);
        assert s[..1] == [s[0]];
        NoQuotesLeft(s[1..]);
      }
    }
  }

  /** A button text "Pobierz <format>" names the format, when it has no 'P' and no quote and is trimmed. */
  lemma FileTypeOfLabel(t: string)
    requires t != [] && Trimmed(t) && 'P' !in t && '"' !in t
    ensures FileType("Pobierz " + t) == t
  {
    assert "Pobierz " + t == FORMAT_NOISE[0] + (" " + t);
    RemoveAllLead(0, " " + t, FORMAT_NOISE);
    assert " " + t == (" " + t) + "";
    forall p | p in FORMAT_NOISE ensures p[0] !in " " + t {
    }
    RemoveAllPlain(" " + t, "", FORMAT_NOISE);
    assert RemoveAll("", FORMAT_NOISE) == "";
    assert (" " + t)[1..] == t;
    assert TrimStart(" " + t) == t;
  }

  /** One button's download, or nothing when its first child is not text. */
  function DownloadOf(b: Button): Option<Download> {
    if b.textNode.Some? then Some(Download(FileType(b.textNode.value), b.href)) else None
  }

  /**
   * `getDownloadData`: one download per button, in order, with the format
   * from its text and its `href` as address; a button without a text child
   * throws.
   */
  function DownloadData(buttons: seq<Button>): (r: Outcome<seq<Download>>)
    ensures !r.Stalled?
    ensures r.Done? <==> forall i :: 0 <= i < |buttons| ==> buttons[i].textNode.Some?
    ensures r.Done? ==> |r.value| == |buttons|
    ensures r.Done? ==> forall i :: 0 <= i < |buttons| ==>
      r.value[i] == Download(FileType(buttons[i].textNode.value), buttons[i].href)
    ensures r.Failed? ==> r.reason == TYPE_ERROR
  {
    match Lists.AllSome(buttons, DownloadOf)
    case Some(ds) => Done(ds)
    case None => Failed(TYPE_ERROR)
  }

  /** `getDownloadData`: the loop pushing one entry per button. */
  method GetDownloadData(buttons: seq<Button>) returns (r: Outcome<seq<Download>>)
    ensures r == DownloadData(buttons)
  {
    var result: seq<Download> := [];
    for i := 0 to |buttons|
      invariant |result| == i
      invariant forall k :: 0 <= k < i ==> DownloadOf(buttons[k]) == Some(result[k])
    {
      if buttons[i].textNode.None? {
        return Failed(TYPE_ERROR);
      }
      result := result + [Download(FileType(buttons[i].textNode.value), buttons[i].href)];
    }
    var all := Lists.AllSome(buttons, DownloadOf);
    assert all.value == result;
    r := Done(result);
  }

  /**
   * `downloadProduct`: the folder is ensured; a present, non-empty file is
   * skipped; otherwise the plain download of the encoded address, with no
   * size probe.
   */
  function DownloadProduct(s: State, st: Settings, bookName: string, ext: string, url: string): (r: Step<()>)
    ensures !r.out.Stalled?
    ensures var path := st.pathName(bookName); var dir := st.booksDir + "/" + path;
      var name := path + "." + ext; var s1 := EnsureDirectory(s, dir);
      (Files.ElementExists(s.disk, dir, name) ==> r == Step(Done(()), s1))
      && (!Files.ElementExists(s.disk, dir, name) ==>
            r == DownloadFile(s1, url, dir, name, true)
            && r.st.trace[..|s1.trace| + 1] == s1.trace + [Request(GET, url, Plain.(encoded := true))])
  {
    var path := st.pathName(bookName);
    var dir := st.booksDir + "/" + path;
    var name := path + "." + ext;
    var s1 := EnsureDirectory(s, dir);
    if Files.ElementExists(s1.disk, dir, name) then Step(Done(()), s1)
    else DownloadFile(s1, url, dir, name, true)
  }

  /** The download loop of `getProducts`: a failed download is logged and the next one proceeds. */
  function DownloadsStep(s: State, st: Settings, bookName: string, ds: seq<Download>): (r: Step<()>)
    ensures r.out.Done?
    decreases |ds|
  {
    if ds == [] then Step(Done(()), s)
    else DownloadsStep(DownloadProduct(s, st, bookName, ds[0].fileType, ds[0].downloadLink).st, st, bookName, ds[1..])
  }

  /** A `.prod-info` element as the selectors read it. */
  datatype Product = Product(titleText: string, authorText: string, buttons: seq<Button>)

  /**
   * One product: its download data are read (a button without text rejects
   * the walk), then each download is tried under "title - authors".
   */
  function ProductStep(s: State, st: Settings, p: Product): (r: Step<()>)
    ensures !r.out.Stalled?
    ensures r.out.Done? <==> DownloadData(p.buttons).Done?
    ensures r.out.Failed? ==> r == Step(Failed(TYPE_ERROR), s)
  {
    match DownloadData(p.buttons)
    case Done(ds) => DownloadsStep(s, st, ProductTitle(p.titleText) + " - " + ProductAuthors(p.authorText), ds)
    case Failed(e) => Step(Failed(e), s)
  }

  /** `getProducts`: the products in order; the first that rejects ends the walk. */
  function ProductsStep(s: State, st: Settings, products: seq<Product>): (r: Step<()>)
    ensures !r.out.Stalled?
    ensures r.out.Done? <==> forall i :: 0 <= i < |products| ==> DownloadData(products[i].buttons).Done?
    decreases |products|
  {
    if products == [] then Step(Done(()), s)
    else
      var r := ProductStep(s, st, products[0]);
      assert forall i :: 1 <= i < |products| ==> products[i] == products[1..][i - 1];
      if r.out.Done? then ProductsStep(r.st, st, products[1..]) else r
  }

  function Run(s: State, st: Settings, acct: Account, formKey: string -> Option<string>,
               scrape: string -> seq<Product>): Step<()> {
    GetBooks(s, st.cookiesDir, acct,
             s' => CheckIfUserIsLoggedIn(s', acct, NOT_LOGGED_IN_MARKER),
             s' => LogIn(s', acct, formKey),
             (s', body) => ProductsStep(s', st, scrape(body)))
  }

  // ---------------------------------------------------------------- loops

  /** The download loop of `getProducts`, each download in its own `try`. */
  method DownloadAll(s: State, st: Settings, bookName: string, ds: seq<Download>) returns (r: Step<()>)
    ensures r == DownloadsStep(s, st, bookName, ds)
  {
    var cur := s;
    for i := 0 to |ds|
      invariant DownloadsStep(s, st, bookName, ds) == DownloadsStep(cur, st, bookName, ds[i..])
    {
      assert ds[i..][0] == ds[i] && ds[i..][1..] == ds[i + 1..];
      cur := DownloadProduct(cur, st, bookName, ds[i].fileType, ds[i].downloadLink).st;
    }
    assert ds[|ds|..] == [];
    r := Step(Done(()), cur);
  }

  /** One pass of `getProducts`' loop. */
  method ProcessProduct(s: State, st: Settings, p: Product) returns (r: Step<()>)
    ensures r == ProductStep(s, st, p)
  {
    var title := ProductTitle(p.titleText);
    var authors := ProductAuthors(p.authorText);
    var data := GetDownloadData(p.buttons);
    if data.Failed? {
      return Step(Failed(data.reason), s);
    }
    r := DownloadAll(s, st, title + " - " + authors, data.value);
  }

  /** `getProducts`. */
  method GetProducts(s: State, st: Settings, products: seq<Product>) returns (r: Step<()>)
    ensures r == ProductsStep(s, st, products)
  {
    r := Step(Done(()), s);
    var i := 0;
    while i < |products| && r.out.Done?
      invariant 0 <= i <= |products|
      invariant r.out.Done? ==> ProductsStep(s, st, products) == ProductsStep(r.st, st, products[i..])
      invariant !r.out.Done? ==> ProductsStep(s, st, products) == r
    {
      var next := ProcessProduct(r.st, st, products[i]);
      assert ProductsStep(r.st, st, products[i..])
          == if next.out.Done? then ProductsStep(next.st, st, products[i + 1..]) else next by {
        assert products[i..][0] == products[i] && products[i..][1..] == products[i + 1..];
      }
      r := next;
      i := i + 1;
    }
    if r.out.Done? {
      assert products[i..] == [];
      r := Step(Done(()), r.st);
    }
  }
}
