/**
 * The Springer adapter: the Apress layout (titles, download buttons whose
 * pages hold the real address) with a login that does not follow the
 * redirect of its POST, authors written "First Last, First Last" and
 * normalised for white space, download lookups that are each allowed to
 * fail, and downloads without a size probe or URI encoding.
 */
module Springer {
  import opened Wrappers
  import opened Text
  import Lists
  import Files
  import opened Env
  import opened Bookstore
  import Apress

  const NOT_LOGGED_IN_MARKER := "login"

  // ---------------------------------------------------------------- login

  /** The login POST: the form fields, and redirects are not followed. */
  function LoginOptions(acct: Account): Options {
    FormOf(map["IDToken1" := acct.login, "IDToken2" := acct.password,
               "goto" := acct.bookshelfUrl, "failureGoto" := acct.loginFormUrl]).(followRedirect := false)
  }

  /**
   * `logIn`: the login form is visited (its failure rejects), a jittered
   * three-second pause, then the shared form submission with redirects
   * off; logged in exactly when the bookshelf's final address, fetched
   * afterwards, lacks "login".
   */
  function LogIn(s: State, acct: Account): (r: Step<string>)
    ensures !r.out.Stalled?
    ensures r.st.disk == s.disk
    ensures ReplyAt(s.replies, 0).TransportError? ==> r.out == Failed(ReplyAt(s.replies, 0).reason)
    ensures r.out.Done? <==>
      ReplyAt(s.replies, 0).Answer? && ReplyAt(s.replies, 1).Answer? && ReplyAt(s.replies, 2).Answer?
      && MarkerAbsent(ReplyAt(s.replies, 2).response.finalUrl, NOT_LOGGED_IN_MARKER)
    ensures r.out.Done? ==> r.out.value == ReplyAt(s.replies, 2).response.body
    ensures ReplyAt(s.replies, 0).Answer? && ReplyAt(s.replies, 1).Answer? ==>
      r.st.trace == s.trace + [Wait(0, true), Request(GET, acct.loginFormUrl, Plain), Wait(3 * ONE_SECOND, false),
                               Wait(3 * ONE_SECOND, true), Request(POST, acct.loginServiceUrl, LoginOptions(acct)),
                               Request(GET, acct.bookshelfUrl, Plain)]
      && !LoginOptions(acct).followRedirect
  {
    var v := VisitLoginForm(s, acct.loginFormUrl);
    if !v.out.Done? then Step(Failed(v.out.reason), v.st)
    else
      ReplyAtDrop(s.replies, 1, 0);
      ReplyAtDrop(s.replies, 1, 1);
      SendLoginForm(Pause(v.st, 3 * ONE_SECOND, true), acct, NOT_LOGGED_IN_MARKER, LoginOptions(acct))
  }

  // ---------------------------------------------------------------- authors

  /** The text one `.authors` block contributes: its parts split on ", ", each trimmed, joined again. */
  function BlockText(text: string): string {
    Join(Lists.Map(SplitOn(text, ", "), Trim), ", ")
  }

  /** The blocks' texts run together with no separator between blocks. */
  function Concat(blocks: seq<string>): string {
    if blocks == [] then ""
    else Concat(blocks[..|blocks| - 1]) + BlockText(blocks[|blocks| - 1])
  }

  /**
   * `getBookAuthors`: the blocks run together, every white-space run made
   * one blank, the ends trimmed.
   */
  function BookAuthors(blocks: seq<string>): (r: string)
    ensures Trimmed(r) && SingleSpaced(r)
  {
    var c := CollapseSpaces(Concat(blocks));
    TrimKeepsSpacing(c);
    Trim(c)
  }

  /** Names that are trimmed and single-spaced, joined with ", ", give a text of the same kind. */
  lemma {:induction false} TidyJoin(names: seq<string>)
    requires forall n :: n in names ==> n != [] && Trimmed(n) && SingleSpaced(n)
    ensures Trimmed(Join(names, ", ")) && SingleSpaced(Join(names, ", "))
    ensures names != [] ==> names[0] in names && Join(names, ", ") != [] && Join(names, ", ")[0] == names[0][0]
  {
    if |names| == 1 {
      assert names[0] in names;
    } else if |names| > 1 {
      var a := names[0];
      assert a in names;
      forall n | n in names[1..] ensures n != [] && Trimmed(n) && SingleSpaced(n) {
        assert n in names;
      }
      TidyJoin(names[1..]);
      var rest := Join(names[1..], ", ");
      assert SingleSpaced(", ");
      SingleSpacedAppend(a, ", ");
      SingleSpacedAppend(a + ", ", rest);
      assert a + ", " + rest == Join(names, ", ");
      assert (a + ", " + rest)[0] == a[0];
      assert (a + ", " + rest)[|a + ", " + rest| - 1] == rest[|rest| - 1];
    }
  }

  /** A text of tidy names (no comma, no white space at their ends or doubled inside) joined with ", ". */
  predicate TidyNames(names: seq<string>) {
    forall n :: n in names ==> n != [] && Trimmed(n) && SingleSpaced(n) && ',' !in n
  }

  /** Splitting such a block and trimming its parts gives back the same text. */
  lemma TidyBlock(names: seq<string>)
    requires names != [] && TidyNames(names)
    ensures BlockText(Join(names, ", ")) == Join(names, ", ")
  {
    forall n | n in names ensures ", "[0] !in n {
    }
    SplitJoin(names, ", ");
    forall i | 0 <= i < |names| ensures Trim(names[i]) == names[i] {
      assert names[i] in names;
    }
    assert Lists.Map(names, Trim) == names;
  }

  /** A non-empty trimmed single-spaced text survives the final normalisation. */
  lemma TidyNormalised(text: string)
    requires Trimmed(text) && SingleSpaced(text)
    ensures Trim(CollapseSpaces(text)) == text
  {
    CollapseSingleSpaced(text);
  }

  lemma ConcatTwo(x: string, y: string)
    ensures Concat([x]) == BlockText(x)
    ensures Concat([x, y]) == BlockText(x) + BlockText(y)
  {
    assert [x, y][..1] == [x] && [x][..0] == [];
  }

  /**
   * A single block holding tidy names joined with ", " comes out
   * unchanged.
   */
  lemma BlockRoundTrip(names: seq<string>)
    requires names != [] && TidyNames(names)
    ensures BookAuthors([Join(names, ", ")]) == Join(names, ", ")
  {
    var text := Join(names, ", ");
    TidyBlock(names);
    ConcatTwo(text, text);
    assert forall n :: n in names ==> n != [] && Trimmed(n) && SingleSpaced(n);
    TidyJoin(names);
    TidyNormalised(text);
  }

  /**
   * Two blocks of one tidy name each are run together with no separator:
   * the authors read as one name glued to the next.
   */
  lemma BlocksRunTogether(a: string, b: string)
    requires TidyNames([a]) && TidyNames([b])
    ensures BookAuthors([a, b]) == a + b
  {
    TidyOne(a);
    TidyOne(b);
    ConcatTwo(a, b);
    SingleSpacedAppend(a, b);
    assert (a + b)[0] == a[0];
    assert (a + b)[|a + b| - 1] == b[|b| - 1];
    TidyNormalised(a + b);
  }

  /** One tidy name is a block that splitting and trimming leave as it is. */
  lemma TidyOne(a: string)
    requires TidyNames([a])
    ensures a != [] && Trimmed(a) && SingleSpaced(a) && BlockText(a) == a
  {
    assert a in [a];
    TidyBlock([a]);
    assert Join([a], ", ") == a;
  }

  /** The in-place loop of `getBookAuthors`: every part of a block is trimmed where it stands. */
  method TrimParts(parts: array<string>)
    modifies parts
    ensures parts[..] == Lists.Map(old(parts[..]), Trim)
  {
    for i := 0 to parts.Length
      invariant forall k :: i <= k < parts.Length ==> parts[k] == old(parts[k])
      invariant forall k :: 0 <= k < i ==> parts[k] == Trim(old(parts[k]))
    {
      parts[i] := Trim(parts[i]);
    }
  }

  /** One block of `getBookAuthors`: split on ", ", each part trimmed in place, joined again. */
  method BlockAuthors(block: string) returns (t: string)
    ensures t == BlockText(block)
  {
    var split := SplitOn(block, ", ");
    var parts := new string[|split|](i requires 0 <= i < |split| => split[i]);
    assert parts[..] == split;
    TrimParts(parts);
    t := Join(parts[..], ", ");
  }

  /** `getBookAuthors`: each block split, its parts trimmed in place, joined and appended. */
  method GetBookAuthors(blocks: seq<string>) returns (r: string)
    ensures r == BookAuthors(blocks)
  {
    var authors := "";
    for b := 0 to |blocks|
      invariant authors == Concat(blocks[..b])
    {
      var text := BlockAuthors(blocks[b]);
      assert blocks[..b + 1][..b] == blocks[..b];
      authors := authors + text;
    }
    assert blocks[..|blocks|] == blocks;
    r := Trim(CollapseSpaces(authors));
  }

  // ---------------------------------------------------------------- downloads

  /**
   * The lookups of `getBookDownloads`: for each button a jittered
   * one-second pause and a GET of the main page address followed by its
   * `href`; each lookup is inside a `try`, so a failure yields nothing for
   * that button and the next one proceeds.
   */
  function Lookups(s: State, mainPageUrl: string, buttons: seq<Apress.Button>): (r: Step<seq<Option<string>>>)
    ensures r.out.Done? && |r.out.value| == |buttons|
    ensures r.st.disk == s.disk && r.st.replies == Drop(s.replies, |buttons|)
    decreases |buttons|
  {
    if buttons == [] then
      DropZero(s.replies);
      Step(Done([]), s)
    else
      var g := GetPageBody(s, mainPageUrl + buttons[0].href, ONE_SECOND, false);
      var link := if g.out.Done? then Some(g.out.value.body) else None;
      var rest := Lookups(g.st, mainPageUrl, buttons[1..]);
      DropDrop(s.replies, |buttons| - 1);
      Step(Done([link] + rest.out.value), rest.st)
  }

  /** The i-th lookup found the body of the i-th reply exactly when that reply was an answer. */
  lemma {:induction false} LookupsValues(s: State, mainPageUrl: string, buttons: seq<Apress.Button>)
    ensures var links := Lookups(s, mainPageUrl, buttons).out.value;
      forall i :: 0 <= i < |buttons| ==> links[i] == Found(ReplyAt(s.replies, i))
    decreases |buttons|
  {
    if buttons != [] {
      var g := GetPageBody(s, mainPageUrl + buttons[0].href, ONE_SECOND, false);
      var rest := Lookups(g.st, mainPageUrl, buttons[1..]).out.value;
      var links := Lookups(s, mainPageUrl, buttons).out.value;
      LookupsValues(g.st, mainPageUrl, buttons[1..]);
      forall i | 0 <= i < |buttons| ensures links[i] == Found(ReplyAt(s.replies, i)) {
        if i > 0 {
          ReplyAtDrop(s.replies, 1, i - 1);
          assert links[i] == rest[i - 1];
        }
      }
    }
  }

  /** The address a lookup finds in a reply: its body, or nothing when the fetch failed. */
  function Found(reply: Reply): Option<string> {
    if reply.Answer? then Some(reply.response.body) else None
  }

  /** The format of each button, in order. */
  function Formats(buttons: seq<Apress.Button>): (fs: seq<string>)
    ensures |fs| == |buttons|
  {
    seq(|buttons|, i requires 0 <= i < |buttons| => Apress.FileType(buttons[i].text))
  }

  /** The download a lookup produces: none, or one with the button's format and the address found. */
  function Kept(format: string, link: Option<string>): (r: seq<Apress.Download>)
    ensures |r| <= 1 && (|r| == 1 <==> link.Some?)
  {
    if link.Some? then [Apress.Download(format, link.value)] else []
  }

  /** The downloads of the lookups: one per format whose lookup found an address, in button order. */
  function Produced(formats: seq<string>, links: seq<Option<string>>): (ds: seq<Apress.Download>)
    requires |links| == |formats|
    ensures |ds| <= |formats|
    decreases |formats|
  {
    if formats == [] then []
    else
      var n := |formats| - 1;
      Produced(formats[..n], links[..n]) + Kept(formats[n], links[n])
  }

  /** Every button gives a download exactly when every lookup found an address. */
  lemma {:induction false} ProducedCount(formats: seq<string>, links: seq<Option<string>>)
    requires |links| == |formats|
    ensures |Produced(formats, links)| == |formats| <==> forall i :: 0 <= i < |links| ==> links[i].Some?
    decreases |formats|
  {
    if formats != [] {
      var n := |formats| - 1;
      ProducedCount(formats[..n], links[..n]);
      assert forall i :: 0 <= i < n ==> links[..n][i] == links[i];
    }
  }

  /** When every lookup found an address, the downloads are one per button, each in its place. */
  lemma {:induction false} ProducedAll(formats: seq<string>, links: seq<Option<string>>)
    requires |links| == |formats|
    requires forall i :: 0 <= i < |links| ==> links[i].Some?
    ensures var ds := Produced(formats, links);
      |ds| == |formats| && forall i :: 0 <= i < |ds| ==> ds[i] == Apress.Download(formats[i], links[i].value)
    decreases |formats|
  {
    if formats != [] {
      var n := |formats| - 1;
      assert forall i :: 0 <= i < n ==> links[..n][i] == links[i] && formats[..n][i] == formats[i];
      ProducedAll(formats[..n], links[..n]);
    }
  }

  /** One more lookup adds its download, if it produced one, at the end. */
  lemma ProducedSnoc(formats: seq<string>, links: seq<Option<string>>, i: nat, link: Option<string>)
    requires |links| == i < |formats|
    ensures Produced(formats[..i + 1], links + [link]) == Produced(formats[..i], links) + Kept(formats[i], link)
  {
    assert formats[..i + 1][..i] == formats[..i] && formats[..i + 1][i] == formats[i];
    assert (links + [link])[..i] == links && (links + [link])[i] == link;
  }

  /** `getBookDownloads`: the downloads whose lookups succeeded. */
  function DownloadsOf(s: State, mainPageUrl: string, buttons: seq<Apress.Button>): (r: Step<seq<Apress.Download>>)
    ensures r.out.Done? && |r.out.value| <= |buttons|
    ensures r.st.disk == s.disk && r.st.replies == Drop(s.replies, |buttons|)
  {
    var g := Lookups(s, mainPageUrl, buttons);
    Step(Done(Produced(Formats(buttons), g.out.value)), g.st)
  }

  /**
   * The downloads of a product are, in button order, those whose lookup
   * reply was an answer, with the button's format and the reply's body;
   * one per button exactly when every reply was an answer.
   */
  lemma DownloadsOfValues(s: State, mainPageUrl: string, buttons: seq<Apress.Button>)
    ensures var ds := DownloadsOf(s, mainPageUrl, buttons).out.value;
      var links := seq(|buttons|, i requires 0 <= i < |buttons| => Found(ReplyAt(s.replies, i)));
      ds == Produced(Formats(buttons), links)
      && (|ds| == |buttons| <==> forall i :: 0 <= i < |buttons| ==> ReplyAt(s.replies, i).Answer?)
  {
    LookupsValues(s, mainPageUrl, buttons);
    var links := seq(|buttons|, i requires 0 <= i < |buttons| => Found(ReplyAt(s.replies, i)));
    assert Lookups(s, mainPageUrl, buttons).out.value == links;
    LookedUpCount(s, mainPageUrl, buttons, Formats(buttons));
  }

  /** Whatever the formats, every button yields a download exactly when every lookup was answered. */
  lemma LookedUpCount(s: State, mainPageUrl: string, buttons: seq<Apress.Button>, formats: seq<string>)
    requires |formats| == |buttons|
    ensures |Produced(formats, Lookups(s, mainPageUrl, buttons).out.value)| == |buttons|
      <==> forall i :: 0 <= i < |buttons| ==> ReplyAt(s.replies, i).Answer?
  {
    var links := Lookups(s, mainPageUrl, buttons).out.value;
    LookupsValues(s, mainPageUrl, buttons);
    ProducedCount(formats, links);
    assert forall i :: 0 <= i < |buttons| ==> (links[i].Some? <==> ReplyAt(s.replies, i).Answer?);
  }

  /** Every reply an answer: one download per button, in order, each with its page's body as address. */
  lemma AllFoundKeepsAll(s: State, mainPageUrl: string, buttons: seq<Apress.Button>)
    requires forall i :: 0 <= i < |buttons| ==> ReplyAt(s.replies, i).Answer?
    ensures var ds := DownloadsOf(s, mainPageUrl, buttons).out.value;
      |ds| == |buttons|
      && forall i :: 0 <= i < |buttons| ==>
           ds[i] == Apress.Download(Apress.FileType(buttons[i].text), ReplyAt(s.replies, i).response.body)
  {
    LookupsValues(s, mainPageUrl, buttons);
    var links := Lookups(s, mainPageUrl, buttons).out.value;
    ProducedAll(Formats(buttons), links);
  }

  /**
   * `downloadBook`: the book's folder is ensured; a present, non-empty file
   * is skipped; otherwise the plain download, with no size probe and the
   * address left unencoded.
   */
  function DownloadBook(s: State, st: Settings, bookName: string, d: Apress.Download): (r: Step<()>)
    ensures !r.out.Stalled?
    ensures var path := st.pathName(bookName); var dir := st.booksDir + "/" + path;
      var name := path + "." + d.fileType; var s1 := EnsureDirectory(s, dir);
      (Files.ElementExists(s.disk, dir, name) ==> r == Step(Done(()), s1))
      && (!Files.ElementExists(s.disk, dir, name) ==>
            r == DownloadFile(s1, d.downloadLink, dir, name, false)
            && r.st.trace[..|s1.trace| + 1] == s1.trace + [Request(GET, d.downloadLink, Plain)])
  {
    var path := st.pathName(bookName);
    var dir := st.booksDir + "/" + path;
    var name := path + "." + d.fileType;
    var s1 := EnsureDirectory(s, dir);
    if Files.ElementExists(s1.disk, dir, name) then Step(Done(()), s1)
    else
      var r := DownloadFile(s1, d.downloadLink, dir, name, false);
      assert Plain.(encoded := false) == Plain;
      r
  }

  /** The download loop of `getProducts`: a failed download is logged and the next one proceeds. */
  function DownloadsStep(s: State, st: Settings, bookName: string, ds: seq<Apress.Download>): (r: Step<()>)
    ensures r.out.Done?
    decreases |ds|
  {
    if ds == [] then Step(Done(()), s)
    else DownloadsStep(DownloadBook(s, st, bookName, ds[0]).st, st, bookName, ds[1..])
  }

  function BookName(item: Apress.Item): string {
    Apress.BookTitle(item.titleText, item.subtitleText) + " - " + BookAuthors(item.authorBlocks)
  }

  /** One product: its downloads are looked up, then each is downloaded under "title - authors". */
  function ItemStep(s: State, st: Settings, mainPageUrl: string, item: Apress.Item): (r: Step<()>)
    ensures r.out.Done?
  {
    var g := DownloadsOf(s, mainPageUrl, item.buttons);
    DownloadsStep(g.st, st, BookName(item), g.out.value)
  }

  /**
   * `getProducts`: the products in order. Lookups and downloads are each
   * guarded, so the walk always resolves, whatever the replies.
   */
  function ItemsStep(s: State, st: Settings, mainPageUrl: string, items: seq<Apress.Item>): (r: Step<()>)
    ensures r.out.Done?
    decreases |items|
  {
    if items == [] then Step(Done(()), s)
    else ItemsStep(ItemStep(s, st, mainPageUrl, items[0]).st, st, mainPageUrl, items[1..])
  }

  function Run(s: State, st: Settings, acct: Account, scrape: string -> seq<Apress.Item>): Step<()> {
    GetBooks(s, st.cookiesDir, acct,
             s' => CheckIfUserIsLoggedIn(s', acct, NOT_LOGGED_IN_MARKER),
             s' => LogIn(s', acct),
             (s', body) => ItemsStep(s', st, acct.mainPageUrl, scrape(body)))
  }

  // ---------------------------------------------------------------- loops

  /** A step's lookups with `acc` put before them. */
  function Prefixed(acc: seq<Option<string>>, r: Step<seq<Option<string>>>): Step<seq<Option<string>>> {
    if r.out.Done? then Step(Done(acc + r.out.value), r.st) else r
  }

  lemma PrefixedCons(acc: seq<Option<string>>, x: Option<string>, rest: Step<seq<Option<string>>>)
    requires rest.out.Done?
    ensures Prefixed(acc, Step(Done([x] + rest.out.value), rest.st)) == Prefixed(acc + [x], rest)
  {
    assert acc + ([x] + rest.out.value) == acc + [x] + rest.out.value;
  }

  /** One lookup of the loop moves its result from the lookups still to come to those done. */
  lemma LookupStep(links: seq<Option<string>>, cur: State, mainPageUrl: string, buttons: seq<Apress.Button>, i: nat)
    requires i < |buttons|
    ensures var g := GetPageBody(cur, mainPageUrl + buttons[i].href, ONE_SECOND, false);
      var link := if g.out.Done? then Some(g.out.value.body) else None;
      Prefixed(links, Lookups(cur, mainPageUrl, buttons[i..]))
        == Prefixed(links + [link], Lookups(g.st, mainPageUrl, buttons[i + 1..]))
  {
    assert buttons[i..][0] == buttons[i] && buttons[i..][1..] == buttons[i + 1..];
    var g := GetPageBody(cur, mainPageUrl + buttons[i].href, ONE_SECOND, false);
    var link := if g.out.Done? then Some(g.out.value.body) else None;
    PrefixedCons(links, link, Lookups(g.st, mainPageUrl, buttons[i + 1..]));
  }

  /** One pass of `getBookDownloads`' loop: the lookup for button `i`, and its download when it succeeds. */
  method NextDownload(ghost links: seq<Option<string>>, formats: seq<string>, downloads: seq<Apress.Download>,
                      cur: State, mainPageUrl: string, buttons: seq<Apress.Button>, i: nat)
    returns (downloads': seq<Apress.Download>, ghost link: Option<string>, cur': State)
    requires |links| == i < |buttons| == |formats|
    requires downloads == Produced(formats[..i], links)
    ensures downloads' == Produced(formats[..i + 1], links + [link])
    ensures Prefixed(links, Lookups(cur, mainPageUrl, buttons[i..]))
         == Prefixed(links + [link], Lookups(cur', mainPageUrl, buttons[i + 1..]))
  {
    var g := GetPageBody(cur, mainPageUrl + buttons[i].href, ONE_SECOND, false);
    link := None;
    downloads' := downloads;
    if g.out.Done? {
      link := Some(g.out.value.body);
      downloads' := downloads + [Apress.Download(formats[i], g.out.value.body)];
    }
    LookupStep(links, cur, mainPageUrl, buttons, i);
    ProducedSnoc(formats, links, i, link);
    cur' := g.st;
  }

  /** `getBookDownloads`: the loop pushing a download for each lookup that succeeds. */
  method GetBookDownloads(s: State, mainPageUrl: string, buttons: seq<Apress.Button>) returns (r: Step<seq<Apress.Download>>)
    ensures r == DownloadsOf(s, mainPageUrl, buttons)
  {
    r := CollectDownloads(s, mainPageUrl, buttons, Formats(buttons));
  }

  /** The loop of `getBookDownloads`, given the buttons' formats. */
  method CollectDownloads(s: State, mainPageUrl: string, buttons: seq<Apress.Button>, formats: seq<string>)
    returns (r: Step<seq<Apress.Download>>)
    requires |formats| == |buttons|
    ensures var l := Lookups(s, mainPageUrl, buttons); r == Step(Done(Produced(formats, l.out.value)), l.st)
  {
    var downloads: seq<Apress.Download> := [];
    ghost var links: seq<Option<string>> := [];
    var cur := s;
    assert Prefixed([], Lookups(s, mainPageUrl, buttons)) == Lookups(s, mainPageUrl, buttons) by {
      assert [] + Lookups(s, mainPageUrl, buttons).out.value == Lookups(s, mainPageUrl, buttons).out.value;
    }
    assert buttons[0..] == buttons;
    for i := 0 to |buttons|
      invariant |links| == i
      invariant Lookups(s, mainPageUrl, buttons) == Prefixed(links, Lookups(cur, mainPageUrl, buttons[i..]))
      invariant downloads == Produced(formats[..i], links)
    {
      ghost var link;
      downloads, link, cur := NextDownload(links, formats, downloads, cur, mainPageUrl, buttons, i);
      links := links + [link];
    }
    assert buttons[|buttons|..] == [] && formats[..|buttons|] == formats;
    assert links + [] == links;
    r := Step(Done(downloads), cur);
  }

  /** The download loop of `getProducts`, each download in its own `try`. */
  method DownloadAll(s: State, st: Settings, bookName: string, ds: seq<Apress.Download>) returns (r: Step<()>)
    ensures r == DownloadsStep(s, st, bookName, ds)
  {
    var cur := s;
    for i := 0 to |ds|
      invariant DownloadsStep(s, st, bookName, ds) == DownloadsStep(cur, st, bookName, ds[i..])
    {
      assert ds[i..][0] == ds[i] && ds[i..][1..] == ds[i + 1..];
      cur := DownloadBook(cur, st, bookName, ds[i]).st;
    }
    assert ds[|ds|..] == [];
    r := Step(Done(()), cur);
  }

  /** One pass of `getProducts`' loop. */
  method ProcessItem(s: State, st: Settings, mainPageUrl: string, item: Apress.Item) returns (r: Step<()>)
    ensures r == ItemStep(s, st, mainPageUrl, item)
  {
    var title := Apress.BookTitle(item.titleText, item.subtitleText);
    var authors := GetBookAuthors(item.authorBlocks);
    var g := GetBookDownloads(s, mainPageUrl, item.buttons);
    r := DownloadAll(g.st, st, title + " - " + authors, g.out.value);
  }

  /** The pass over product `i`, which leaves the loop's end where it was. */
  method ProcessItemAt(s: State, st: Settings, mainPageUrl: string, items: seq<Apress.Item>, i: nat)
    returns (next: State)
    requires i < |items|
    ensures ItemsStep(next, st, mainPageUrl, items[i + 1..]) == ItemsStep(s, st, mainPageUrl, items[i..])
  {
    var r := ProcessItem(s, st, mainPageUrl, items[i]);
    ItemsStepAt(s, st, mainPageUrl, items, i);
    next := r.st;
  }

  /** The product loop from product `i` on: that product's pass, then the rest. */
  lemma ItemsStepAt(s: State, st: Settings, mainPageUrl: string, items: seq<Apress.Item>, i: nat)
    requires i < |items|
    ensures ItemsStep(s, st, mainPageUrl, items[i..])
      == ItemsStep(ItemStep(s, st, mainPageUrl, items[i]).st, st, mainPageUrl, items[i + 1..])
  {
    assert items[i..][0] == items[i] && items[i..][1..] == items[i + 1..];
  }

  /** `getProducts`: every product is visited, whatever befalls the earlier ones. */
  method GetProducts(s: State, st: Settings, mainPageUrl: string, items: seq<Apress.Item>) returns (r: Step<()>)
    ensures r == ItemsStep(s, st, mainPageUrl, items)
  {
    var cur := s;
    for i := 0 to |items|
      invariant ItemsStep(s, st, mainPageUrl, items) == ItemsStep(cur, st, mainPageUrl, items[i..])
    {
      cur := ProcessItemAt(cur, st, mainPageUrl, items, i);
    }
    assert items[|items|..] == [];
    r := Step(Done(()), cur);
  }
}
