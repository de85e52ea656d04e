/**
 * The Apress adapter: a form login after a visit of the login form, and a
 * bookshelf of products, each with a title and subtitle, blocks of authors
 * written "Last, First, Last, First…", and download buttons whose targets
 * are pages holding the real download address.
 */
module Apress {
  import opened Wrappers
  import opened Text
  import Files
  import opened Env
  import opened Bookstore

  const NOT_LOGGED_IN_MARKER := "login"

  // ---------------------------------------------------------------- login

  function LoginForm(acct: Account): map<string, string> {
    map["email" := acct.login, "password" := acct.password, "url" := acct.bookshelfUrl]
  }

  /**
   * `logIn`: the login form is visited (its failure rejects), a jittered
   * three-second pause, then the shared form submission; logged in exactly
   * when the bookshelf's final address lacks "login".
   */
  function LogIn(s: State, acct: Account): (r: Step<string>)
    ensures !r.out.Stalled?
    ensures r.st.disk == s.disk
    ensures ReplyAt(s.replies, 0).TransportError? ==> r.out == Failed(ReplyAt(s.replies, 0).reason)
    ensures r.out.Done? <==>
      ReplyAt(s.replies, 0).Answer? && ReplyAt(s.replies, 1).Answer? && ReplyAt(s.replies, 2).Answer?
      && MarkerAbsent(ReplyAt(s.replies, 2).response.finalUrl, NOT_LOGGED_IN_MARKER)
    ensures r.out.Done? ==> r.out.value == ReplyAt(s.replies, 2).response.body
  {
    var v := VisitLoginForm(s, acct.loginFormUrl);
    if !v.out.Done? then Step(Failed(v.out.reason), v.st)
    else
      ReplyAtDrop(s.replies, 1, 0);
      ReplyAtDrop(s.replies, 1, 1);
      SendLoginForm(Pause(v.st, 3 * ONE_SECOND, true), acct, NOT_LOGGED_IN_MARKER, FormOf(LoginForm(acct)))
  }

  // ---------------------------------------------------------------- titles

  /**
   * `getBookTitle`: "title. subtitle" from the trimmed texts, where an empty
   * subtitle leaves a trailing ". " that is removed, so the title alone
   * remains.
   */
  function BookTitle(titleText: string, subtitleText: string): (r: string)
    ensures Trim(subtitleText) == "" ==> r == Trim(titleText)
    ensures Trim(subtitleText) != "" && Trim(titleText) != "" ==> r == Trim(titleText) + ". " + Trim(subtitleText)
  {
    var t, sub := Trim(titleText), Trim(subtitleText);
    TitleJoined(t, sub);
    Trim(DropSuffix(t + ". " + sub, ". "))
  }

  /** The ". " left by an empty subtitle is what the suffix removal takes; a real subtitle keeps it. */
  lemma TitleJoined(t: string, sub: string)
    requires t == [] || (!IsSpace(t[0]) && !IsSpace(t[|t| - 1]))
    requires sub == [] || (!IsSpace(sub[0]) && !IsSpace(sub[|sub| - 1]))
    ensures sub == "" ==> Trim(DropSuffix(t + ". " + sub, ". ")) == t
    ensures sub != "" && t != "" ==> Trim(DropSuffix(t + ". " + sub, ". ")) == t + ". " + sub
  {
    var joined := t + ". " + sub;
    if sub == "" {
      assert joined[|joined| - 2..] == ". ";
      assert joined[..|joined| - 2] == t;
    } else {
      assert joined[|joined| - 1] == sub[|sub| - 1];
      assert !EndsWith(joined, ". ");
      if t != "" {
        assert joined[0] == t[0];
      }
    }
  }

  // ---------------------------------------------------------------- authors

  /** A template-string read of `parts[k]`: an index past the end reads "undefined". */
  function PartAt(parts: seq<string>, k: nat): string {
    if k < |parts| then parts[k] else "undefined"
  }

  /** The first `count` pairs of a block's parts, each "Last, First" pair written "First Last". */
  function SwappedPairs(parts: seq<string>, count: nat): (r: seq<string>)
    ensures |r| == count
    ensures forall i :: 0 <= i < count ==> r[i] == PartAt(parts, 2 * i + 1) + " " + PartAt(parts, 2 * i)
  {
    if count == 0 then []
    else SwappedPairs(parts, count - 1) + [PartAt(parts, 2 * (count - 1) + 1) + " " + PartAt(parts, 2 * (count - 1))]
  }

  /**
   * The names one `.authors` block contributes as written: its text split on
   * ", ", and, when there are at least two parts, the pairs visited while
   * `i < parts.length / 2` under real division, which is half the count
   * rounded up.
   */
  function BlockNamesAsWritten(text: string): (r: seq<string>)
    ensures |SplitOn(text, ", ")| < 2 ==> r == []
  {
    PairsAsWritten(SplitOn(text, ", "))
  }

  function PairsAsWritten(parts: seq<string>): seq<string> {
    if |parts| >= 2 then SwappedPairs(parts, (|parts| + 1) / 2) else []
  }

  /**
   * The names one `.authors` block contributes, visiting complete pairs
   * only: each name is a part and the part before it, both in range.
   */
  function BlockNames(text: string): (r: seq<string>)
    ensures var parts := SplitOn(text, ", ");
      (|parts| < 2 ==> r == [])
      && (|parts| >= 2 ==>
            |r| == |parts| / 2
            && forall i :: 0 <= i < |r| ==> 2 * i + 1 < |parts| && r[i] == parts[2 * i + 1] + " " + parts[2 * i])
  {
    Pairs(SplitOn(text, ", "))
  }

  function Pairs(parts: seq<string>): seq<string> {
    if |parts| >= 2 then SwappedPairs(parts, |parts| / 2) else []
  }

  /** The names one block contributes, as the code reads it or corrected. */
  function BlockNamesOf(text: string, asWritten: bool): seq<string> {
    if asWritten then BlockNamesAsWritten(text) else BlockNames(text)
  }

  /** The names of all blocks in order. */
  function AllNames(blocks: seq<string>, asWritten: bool): seq<string> {
    if blocks == [] then []
    else AllNames(blocks[..|blocks| - 1], asWritten) + BlockNamesOf(blocks[|blocks| - 1], asWritten)
  }

  /** `getBookAuthors` as written: every name followed by ", ", the last ", " removed. */
  function BookAuthorsAsWritten(blocks: seq<string>): (r: string)
    ensures r == Join(AllNames(blocks, true), ", ")
  {
    TerminatedDropped(AllNames(blocks, true), ", ");
    DropSuffix(Terminated(AllNames(blocks, true), ", "), ", ")
  }

  /** `getBookAuthors` visiting complete pairs only: the swapped names joined with ", ". */
  function BookAuthors(blocks: seq<string>): (r: string)
    ensures r == Join(AllNames(blocks, false), ", ")
  {
    TerminatedDropped(AllNames(blocks, false), ", ");
    DropSuffix(Terminated(AllNames(blocks, false), ", "), ", ")
  }

  /** The parts of the example block "Doe, John, Roe". */
  lemma ExampleParts()
    ensures SplitOn("Doe, John, Roe", ", ") == ["Doe", "John", "Roe"]
  {
    var parts := ["Doe", "John", "Roe"];
    assert Join(parts, ", ") == "Doe, John, Roe" by {
      assert parts[1..] == ["John", "Roe"];
      assert parts[1..][1..] == ["Roe"];
    }
    forall p | p in parts ensures ", "[0] !in p {
    }
    SplitJoin(parts, ", ");
  }

  /**
   * With an odd number of parts the loop as written makes one pass too many:
   * its last name reads the index past the end, so it is "undefined"
   * followed by the last part.
   */
  lemma OddCountReadsPastEnd(text: string)
    requires |SplitOn(text, ", ")| >= 3 && |SplitOn(text, ", ")| % 2 == 1
    ensures var parts := SplitOn(text, ", "); var names := BlockNamesAsWritten(text);
      |names| == |parts| / 2 + 1 && names[|names| - 1] == "undefined " + parts[|parts| - 1]
  {
    var parts := SplitOn(text, ", ");
    var k := |parts| / 2;
    assert 2 * k + 1 == |parts| && (|parts| + 1) / 2 == k + 1;
    var names := SwappedPairs(parts, k + 1);
    assert BlockNamesAsWritten(text) == names;
    assert names[k] == PartAt(parts, 2 * k + 1) + " " + PartAt(parts, 2 * k);
    assert PartAt(parts, 2 * k + 1) == "undefined" && PartAt(parts, 2 * k) == parts[|parts| - 1];
    UndefinedThenBlank(parts[|parts| - 1]);
  }

  /** The missing part prints as "undefined", then the blank. */
  lemma UndefinedThenBlank(x: string)
    ensures "undefined" + " " + x == "undefined " + x
  {
    assert "undefined" + " " == "undefined ";
  }

  /**
   * The block "Doe, John, Roe" (split by `ExampleParts`) read as written
   * names "John Doe" and "undefined Roe"; visiting complete pairs names
   * "John Doe" alone.
   */
  lemma OddCountExample()
    ensures PairsAsWritten(["Doe", "John", "Roe"]) == ["John Doe", "undefined Roe"]
    ensures Pairs(["Doe", "John", "Roe"]) == ["John Doe"]
  {
    var parts := ["Doe", "John", "Roe"];
    assert PartAt(parts, 1) + " " + PartAt(parts, 0) == "John Doe" by {
      assert PartAt(parts, 1) == "John" && PartAt(parts, 0) == "Doe";
    }
    assert PartAt(parts, 3) + " " + PartAt(parts, 2) == "undefined Roe" by {
      assert PartAt(parts, 3) == "undefined" && PartAt(parts, 2) == "Roe";
    }
    var one := SwappedPairs(parts, 1);
    assert |one| == 1 && one[0] == "John Doe";
    assert one == ["John Doe"];
    var two := SwappedPairs(parts, 2);
    assert |two| == 2 && two[0] == "John Doe" && two[1] == "undefined Roe";
    assert two == ["John Doe", "undefined Roe"];
  }

  /** With an even number of parts in every block, the loop as written reads only complete pairs. */
  lemma {:induction false} EvenCountsAgree(blocks: seq<string>)
    requires forall b :: b in blocks ==> |SplitOn(b, ", ")| % 2 == 0
    ensures BookAuthorsAsWritten(blocks) == BookAuthors(blocks)
  {
    AllNamesEven(blocks);
  }

  lemma {:induction false} AllNamesEven(blocks: seq<string>)
    requires forall b :: b in blocks ==> |SplitOn(b, ", ")| % 2 == 0
    ensures AllNames(blocks, true) == AllNames(blocks, false)
  {
    if blocks != [] {
      var last := blocks[|blocks| - 1];
      assert last in blocks;
      forall b | b in blocks[..|blocks| - 1] ensures |SplitOn(b, ", ")| % 2 == 0 {
        assert b in blocks;
      }
      AllNamesEven(blocks[..|blocks| - 1]);
      var n := |SplitOn(last, ", ")|;
      assert (n + 1) / 2 == n / 2;
    }
  }

  /** Two names joined. */
  lemma JoinTwo(a: string, b: string)
    ensures Join([a, b], ", ") == a + ", " + b
  {
    assert [a, b][1..] == [b];
  }

  /** A one-block product's names are its block's names. */
  lemma OneBlockNames(block: string, asWritten: bool)
    ensures AllNames([block], asWritten) == BlockNamesOf(block, asWritten)
  {
    var blocks := [block];
    AllNamesSnoc(blocks, 0, asWritten);
    assert blocks[..1] == blocks && blocks[..0] == [];
    assert AllNames([], asWritten) + BlockNamesOf(block, asWritten) == BlockNamesOf(block, asWritten);
  }

  /** The authors of a one-block product are its block's names, joined. */
  lemma OneBlockAuthors(block: string, asWritten: bool)
    ensures AuthorsText([block], asWritten) == Join(BlockNamesOf(block, asWritten), ", ")
  {
    OneBlockNames(block, asWritten);
  }

  /** The names of the block "Doe, John, Roe", as written and corrected. */
  lemma OddBlockNames(block: string)
    requires block == "Doe, John, Roe"
    ensures BlockNamesOf(block, true) == ["John Doe", "undefined Roe"]
    ensures BlockNamesOf(block, false) == ["John Doe"]
  {
    ExampleParts();
    OddCountExample();
  }

  /**
   * The one-block product "Doe, John, Roe": as written its authors are
   * "John Doe, undefined Roe", corrected "John Doe".
   */
  lemma OddBlockAuthors(block: string)
    requires block == "Doe, John, Roe"
    ensures AuthorsText([block], true) == "John Doe, undefined Roe"
    ensures AuthorsText([block], false) == "John Doe"
  {
    OddBlockNames(block);
    OneBlockAuthors(block, true);
    OneBlockAuthors(block, false);
    JoinTwo("John Doe", "undefined Roe");
    OddNamesJoined();
  }

  lemma OddNamesJoined()
    ensures "John Doe" + ", " + "undefined Roe" == "John Doe, undefined Roe"
  {
  }

  /** Every author block of every product has an even number of parts. */
  predicate EvenAuthorCounts(items: seq<Item>) {
    forall i :: 0 <= i < |items| ==> forall b :: b in items[i].authorBlocks ==> |SplitOn(b, ", ")| % 2 == 0
  }

  /**
   * When every author block has an even number of parts, the product walk
   * as written and the corrected one fetch, write and settle alike.
   */
  lemma {:induction false} EvenCountsSameProducts(s: State, st: Settings, mainPageUrl: string, items: seq<Item>)
    requires EvenAuthorCounts(items)
    ensures ItemsStep(s, st, mainPageUrl, items, true) == ItemsStep(s, st, mainPageUrl, items, false)
    decreases |items|
  {
    if items != [] {
      EvenCountsSameProduct(s, st, mainPageUrl, items);
      EvenCountsSameProducts(ItemStep(s, st, mainPageUrl, items[0], true).st, st, mainPageUrl, items[1..]);
    }
  }

  /** The first product of such a walk is named, fetched and written alike, and the rest keep even counts. */
  lemma EvenCountsSameProduct(s: State, st: Settings, mainPageUrl: string, items: seq<Item>)
    requires items != [] && EvenAuthorCounts(items)
    ensures ItemStep(s, st, mainPageUrl, items[0], true) == ItemStep(s, st, mainPageUrl, items[0], false)
    ensures EvenAuthorCounts(items[1..])
  {
    EvenCountsAgree(items[0].authorBlocks);
    assert BookName(items[0], true) == BookName(items[0], false);
    forall i | 0 <= i < |items| - 1
      ensures items[1..][i] == items[i + 1]
    {
    }
  }

  /** One more complete pair appends its swapped name. */
  lemma PairsSnoc(before: seq<string>, parts: seq<string>, i: nat)
    ensures before + SwappedPairs(parts, i + 1)
         == (before + SwappedPairs(parts, i)) + [PartAt(parts, i * 2 + 1) + " " + PartAt(parts, i * 2)]
  {
    var k := 2 * i;
    assert 2 * (i + 1 - 1) == k && i * 2 == k;
    assert SwappedPairs(parts, i + 1) == SwappedPairs(parts, i) + [PartAt(parts, k + 1) + " " + PartAt(parts, k)];
  }

  /** A block's names are its first pairs: half its parts, rounded up as written and down corrected. */
  lemma BlockPairs(text: string, asWritten: bool)
    ensures var parts := SplitOn(text, ", ");
      BlockNamesOf(text, asWritten)
        == if |parts| < 2 then [] else SwappedPairs(parts, Passes(|parts|, asWritten))
  {
  }

  /** One more block appends its names. */
  lemma AllNamesSnoc(blocks: seq<string>, b: nat, asWritten: bool)
    requires b < |blocks|
    ensures AllNames(blocks[..b + 1], asWritten) == AllNames(blocks[..b], asWritten) + BlockNamesOf(blocks[b], asWritten)
  {
    assert blocks[..b + 1][..b] == blocks[..b];
  }

  /** The authors text of a product, as the code reads it or corrected. */
  function AuthorsText(blocks: seq<string>, asWritten: bool): string {
    if asWritten then BookAuthorsAsWritten(blocks) else BookAuthors(blocks)
  }

  /**
   * `getBookAuthors`: the loop over blocks, accumulating "First Last, " for
   * every pair the inner loop visits in a block with at least two parts,
   * then dropping the last ", ".
   */
  method GetBookAuthors(blocks: seq<string>, asWritten: bool) returns (r: string)
    ensures r == AuthorsText(blocks, asWritten)
  {
    var acc := "";
    var b := 0;
    while b < |blocks|
      invariant 0 <= b <= |blocks|
      invariant acc == Terminated(AllNames(blocks[..b], asWritten), ", ")
    {
      acc := AppendBlock(acc, blocks, b, asWritten);
      b := b + 1;
    }
    assert blocks[..b] == blocks;
    r := DropSuffix(acc, ", ");
  }

  /** One pass of the block loop of `getBookAuthors`: the names of the block's visited pairs are appended. */
  method AppendBlock(acc: string, blocks: seq<string>, b: nat, asWritten: bool) returns (r: string)
    requires b < |blocks| && acc == Terminated(AllNames(blocks[..b], asWritten), ", ")
    ensures r == Terminated(AllNames(blocks[..b + 1], asWritten), ", ")
  {
    var parts := SplitOn(blocks[b], ", ");
    ghost var after := AllNames(blocks[..b + 1], asWritten);
    BlockStep(blocks, b, asWritten);
    if |parts| >= 2 {
      r := AppendPairs(acc, AllNames(blocks[..b], asWritten), after, parts, Passes(|parts|, asWritten));
    } else {
      r := acc;
    }
  }

  /**
   * The passes of the pair loop over `n` parts: `i < n / 2` divides exactly,
   * so as written it holds for half the count rounded up; corrected, only
   * complete pairs are visited.
   */
  function Passes(n: nat, asWritten: bool): nat {
    if asWritten then (n + 1) / 2 else n / 2
  }

  /** The names after one more block: its visited pairs, or nothing when it has fewer than two parts. */
  lemma BlockStep(blocks: seq<string>, b: nat, asWritten: bool)
    requires b < |blocks|
    ensures var parts := SplitOn(blocks[b], ", ");
      AllNames(blocks[..b + 1], asWritten)
        == if |parts| < 2 then AllNames(blocks[..b], asWritten)
           else AllNames(blocks[..b], asWritten) + SwappedPairs(parts, Passes(|parts|, asWritten))
  {
    AllNamesSnoc(blocks, b, asWritten);
    BlockPairs(blocks[b], asWritten);
    assert AllNames(blocks[..b], asWritten) + [] == AllNames(blocks[..b], asWritten);
  }

  /** The indexed inner loop of `getBookAuthors`: `count` passes over one block's pairs. */
  method AppendPairs(acc: string, ghost before: seq<string>, ghost after: seq<string>, parts: seq<string>, count: nat)
    returns (r: string)
    requires acc == Terminated(before, ", ") && after == before + SwappedPairs(parts, count)
    ensures r == Terminated(after, ", ")
  {
    r := acc;
    var i := 0;
    PairsTextStart(before, parts);
    while i < count
      invariant 0 <= i <= count
      invariant r == PairsText(before, parts, i)
    {
      r := AppendPair(r, before, parts, i);
      i := i + 1;
    }
  }

  /** What the pair loop has built after `i` passes. */
  ghost function PairsText(before: seq<string>, parts: seq<string>, i: nat): string {
    Terminated(before + SwappedPairs(parts, i), ", ")
  }

  /** Before the first pass the loop has built nothing new. */
  lemma PairsTextStart(before: seq<string>, parts: seq<string>)
    ensures PairsText(before, parts, 0) == Terminated(before, ", ")
  {
    assert SwappedPairs(parts, 0) == [] && before + [] == before;
  }

  /** One pass of the pair loop: "First Last, " for the pair at `2 * i`, a missing part read as "undefined". */
  method AppendPair(acc: string, ghost before: seq<string>, parts: seq<string>, i: nat) returns (r: string)
    requires acc == PairsText(before, parts, i)
    ensures r == PairsText(before, parts, i + 1)
  {
    ghost var names := before + SwappedPairs(parts, i);
    var name := PartAt(parts, i * 2 + 1) + " " + PartAt(parts, i * 2);
    PairsSnoc(before, parts, i);
    TerminatedSnoc(names, name, ", ");
    r := acc + name + ", ";
  }

  // ---------------------------------------------------------------- downloads

  /** A download button: its text and its `href`. */
  datatype Button = Button(text: string, href: string)

  /** A download: its format and the address fetched from the button's page. */
  datatype Download = Download(fileType: string, downloadLink: string)

  /** The format: the button text with its first "Download" removed, trimmed. */
  function FileType(text: string): (r: string)
    ensures r == [] || (!IsSpace(r[0]) && !IsSpace(r[|r| - 1]))
  {
    Trim(ReplaceFirst(text, "Download", ""))
  }

  /** A button text that opens with "Download" gives the rest, trimmed. */
  lemma FileTypeAfterWord(x: string)
    ensures FileType("Download" + x) == Trim(x)
  {
    var t := "Download" + x;
    assert StartsWith(t, "Download");
    assert ReplaceFirst(t, "Download", "") == x;
  }

  /** A button text without the word is only trimmed. */
  lemma FileTypeWithoutWord(t: string)
    requires 'D' !in t
    ensures FileType(t) == Trim(t)
  {
    SeparatorAbsent(t, "Download");
  }

  /** A step's gathered addresses with `acc` put before them. */
  function Prefixed(acc: seq<string>, r: Step<seq<string>>): Step<seq<string>> {
    if r.out.Done? then Step(Done(acc + r.out.value), r.st) else r
  }

  /**
   * The fetches of `getBookDownloads`: for each button a jittered
   * one-second pause and a GET of the main page address followed by its
   * `href`, whose body is the download address; a failed fetch rejects.
   */
  function LinksFrom(s: State, mainPageUrl: string, buttons: seq<Button>): (r: Step<seq<string>>)
    ensures !r.out.Stalled?
    ensures r.out.Done? <==> forall i :: 0 <= i < |buttons| ==> ReplyAt(s.replies, i).Answer?
    ensures r.out.Done? ==> |r.out.value| == |buttons|
    ensures r.st.disk == s.disk
    decreases |buttons|
  {
    if buttons == [] then Step(Done([]), s)
    else
      var g := GetPageBody(s, mainPageUrl + buttons[0].href, ONE_SECOND, false);
      match g.out
      case Done(resp) =>
        var r := LinksFrom(g.st, mainPageUrl, buttons[1..]);
        assert (forall i :: 0 <= i < |buttons| ==> ReplyAt(s.replies, i).Answer?)
            <==> (forall i :: 0 <= i < |buttons| - 1 ==> ReplyAt(g.st.replies, i).Answer?) by {
          forall i | 0 <= i < |buttons| - 1 ensures ReplyAt(g.st.replies, i) == ReplyAt(s.replies, i + 1) {
            ReplyAtDrop(s.replies, 1, i);
          }
          if forall i :: 0 <= i < |buttons| - 1 ==> ReplyAt(g.st.replies, i).Answer? {
            forall i | 0 <= i < |buttons| ensures ReplyAt(s.replies, i).Answer? {
              if i > 0 { assert ReplyAt(g.st.replies, i - 1).Answer?; }
            }
          }
        }
        Prefixed([resp.body], r)
      case Failed(e) => Step(Failed(e), g.st)
      case Stalled => Step(Stalled, g.st)
  }

  /** The address gathered for each button is the body of the page fetched for it, the i-th reply. */
  lemma {:induction false} LinksFromValues(s: State, mainPageUrl: string, buttons: seq<Button>)
    requires LinksFrom(s, mainPageUrl, buttons).out.Done?
    ensures var links := LinksFrom(s, mainPageUrl, buttons).out.value;
      forall i :: 0 <= i < |buttons| ==> ReplyAt(s.replies, i).Answer? && links[i] == ReplyAt(s.replies, i).response.body
    decreases |buttons|
  {
    if buttons != [] {
      var g := GetPageBody(s, mainPageUrl + buttons[0].href, ONE_SECOND, false);
      var rest := LinksFrom(g.st, mainPageUrl, buttons[1..]).out.value;
      var links := LinksFrom(s, mainPageUrl, buttons).out.value;
      assert links == [ReplyAt(s.replies, 0).response.body] + rest;
      LinksFromValues(g.st, mainPageUrl, buttons[1..]);
      forall i | 0 <= i < |buttons|
        ensures ReplyAt(s.replies, i).Answer? && links[i] == ReplyAt(s.replies, i).response.body
      {
        if i > 0 {
          ReplyAtDrop(s.replies, 1, i - 1);
          assert ReplyAt(g.st.replies, i - 1) == ReplyAt(s.replies, i);
          assert links[i] == rest[i - 1];
        }
      }
    }
  }

  /** The downloads: each button's format with the address gathered for it. */
  function Downloads(buttons: seq<Button>, links: seq<string>): (ds: seq<Download>)
    requires |links| == |buttons|
    ensures |ds| == |buttons|
    ensures forall i :: 0 <= i < |ds| ==> ds[i].fileType == FileType(buttons[i].text) && ds[i].downloadLink == links[i]
  {
    seq(|buttons|, i requires 0 <= i < |buttons| => Download(FileType(buttons[i].text), links[i]))
  }

  /** `getBookDownloads`: the downloads of a product, or the rejection of the first failed fetch. */
  function DownloadsOf(s: State, mainPageUrl: string, buttons: seq<Button>): (r: Step<seq<Download>>)
    ensures !r.out.Stalled?
    ensures r.out.Done? <==> forall i :: 0 <= i < |buttons| ==> ReplyAt(s.replies, i).Answer?
  {
    var g := LinksFrom(s, mainPageUrl, buttons);
    match g.out
    case Done(links) => Step(Done(Downloads(buttons, links)), g.st)
    case Failed(e) => Step(Failed(e), g.st)
    case Stalled => Step(Stalled, g.st)
  }

  /**
   * A product's downloads, when all its pages answered: one per button, in
   * order, with the button's format and the body of its page as address.
   */
  lemma DownloadsOfValues(s: State, mainPageUrl: string, buttons: seq<Button>)
    requires DownloadsOf(s, mainPageUrl, buttons).out.Done?
    ensures var ds := DownloadsOf(s, mainPageUrl, buttons).out.value;
      |ds| == |buttons|
      && forall i :: 0 <= i < |buttons| ==>
           ReplyAt(s.replies, i).Answer? && ds[i] == Download(FileType(buttons[i].text), ReplyAt(s.replies, i).response.body)
  {
    LinksFromValues(s, mainPageUrl, buttons);
  }

  /**
   * `downloadBook`: the book's folder is ensured; a present, non-empty file
   * is skipped; otherwise the size-checked download.
   */
  function DownloadBook(s: State, st: Settings, bookName: string, d: Download): (r: Step<()>)
    ensures !r.out.Stalled?
    ensures var path := st.pathName(bookName); var dir := st.booksDir + "/" + path;
      var name := path + "." + d.fileType; var s1 := EnsureDirectory(s, dir);
      (Files.ElementExists(s.disk, dir, name) ==> r == Step(Done(()), s1))
      && (!Files.ElementExists(s.disk, dir, name) ==> r == CheckSizeAndDownloadFile(s1, st.maxFileSize, d.downloadLink, dir, name))
  {
    var path := st.pathName(bookName);
    var dir := st.booksDir + "/" + path;
    var name := path + "." + d.fileType;
    var s1 := EnsureDirectory(s, dir);
    if Files.ElementExists(s1.disk, dir, name) then Step(Done(()), s1)
    else CheckSizeAndDownloadFile(s1, st.maxFileSize, d.downloadLink, dir, name)
  }

  /**
   * The download loop of `getProducts`: each download is inside a `try`, so
   * one that rejects is logged and the next one proceeds from the state it
   * left; the loop itself always resolves.
   */
  function DownloadsStep(s: State, st: Settings, bookName: string, ds: seq<Download>): (r: Step<()>)
    ensures r.out.Done?
    decreases |ds|
  {
    if ds == [] then Step(Done(()), s)
    else DownloadsStep(DownloadBook(s, st, bookName, ds[0]).st, st, bookName, ds[1..])
  }

  /** A `.product-information` element as the selectors read it. */
  datatype Item = Item(titleText: string, subtitleText: string, authorBlocks: seq<string>, buttons: seq<Button>)

  /** "title - authors", the authors read as the code reads them or corrected. */
  function BookName(item: Item, asWritten: bool): string {
    BookTitle(item.titleText, item.subtitleText) + " - " + AuthorsText(item.authorBlocks, asWritten)
  }

  /**
   * One product: its downloads are gathered (outside any `try`, so a failed
   * fetch rejects the walk), then each is downloaded under "title - authors".
   */
  function ItemStep(s: State, st: Settings, mainPageUrl: string, item: Item, asWritten: bool): (r: Step<()>)
    ensures !r.out.Stalled?
    ensures r.out.Done? <==> DownloadsOf(s, mainPageUrl, item.buttons).out.Done?
  {
    var g := DownloadsOf(s, mainPageUrl, item.buttons);
    match g.out
    case Done(ds) => DownloadsStep(g.st, st, BookName(item, asWritten), ds)
    case Failed(e) => Step(Failed(e), g.st)
    case Stalled => Step(Stalled, g.st)
  }

  /** `getProducts`: the products in order; the first that rejects ends the walk. */
  function ItemsStep(s: State, st: Settings, mainPageUrl: string, items: seq<Item>, asWritten: bool): (r: Step<()>)
    ensures !r.out.Stalled?
    decreases |items|
  {
    if items == [] then Step(Done(()), s)
    else
      var r := ItemStep(s, st, mainPageUrl, items[0], asWritten);
      if r.out.Done? then ItemsStep(r.st, st, mainPageUrl, items[1..], asWritten) else r
  }

  /**
   * The whole run. With `asWritten` the products are named with the authors
   * as the code reads them; without it, with the corrected reading.
   */
  function Run(s: State, st: Settings, acct: Account, scrape: string -> seq<Item>, asWritten: bool): Step<()> {
    GetBooks(s, st.cookiesDir, acct,
             s' => CheckIfUserIsLoggedIn(s', acct, NOT_LOGGED_IN_MARKER),
             s' => LogIn(s', acct),
             (s', body) => ItemsStep(s', st, acct.mainPageUrl, scrape(body), asWritten))
  }

  // ---------------------------------------------------------------- loops

  /** `getBookDownloads`: the loop pushing one download per button. */
  method GetBookDownloads(s: State, mainPageUrl: string, buttons: seq<Button>) returns (r: Step<seq<Download>>)
    ensures r == DownloadsOf(s, mainPageUrl, buttons)
  {
    var links: seq<string> := [];
    var cur := s;
    var i := 0;
    assert Prefixed([], LinksFrom(s, mainPageUrl, buttons)) == LinksFrom(s, mainPageUrl, buttons) by {
      var x := LinksFrom(s, mainPageUrl, buttons);
      if x.out.Done? { assert [] + x.out.value == x.out.value; }
    }
    assert buttons[0..] == buttons;
    while i < |buttons|
      invariant 0 <= i <= |buttons| && |links| == i
      invariant LinksFrom(s, mainPageUrl, buttons) == Prefixed(links, LinksFrom(cur, mainPageUrl, buttons[i..]))
    {
      assert buttons[i..][0] == buttons[i] && buttons[i..][1..] == buttons[i + 1..];
      var g := GetPageBody(cur, mainPageUrl + buttons[i].href, ONE_SECOND, false);
      if !g.out.Done? {
        return Step(Failed(g.out.reason), g.st);
      }
      ghost var rest := LinksFrom(g.st, mainPageUrl, buttons[i + 1..]);
      assert Prefixed(links, Prefixed([g.out.value.body], rest)) == Prefixed(links + [g.out.value.body], rest) by {
        if rest.out.Done? { assert links + ([g.out.value.body] + rest.out.value) == links + [g.out.value.body] + rest.out.value; }
      }
      links := links + [g.out.value.body];
      cur := g.st;
      i := i + 1;
    }
    assert buttons[i..] == [];
    assert links + [] == links;
    r := Step(Done(Downloads(buttons, links)), cur);
  }

  /** The download loop of `getProducts`, each download in its own `try`. */
  method DownloadAll(s: State, st: Settings, bookName: string, ds: seq<Download>) returns (r: Step<()>)
    ensures r == DownloadsStep(s, st, bookName, ds)
  {
    var cur := s;
    var i := 0;
    while i < |ds|
      invariant 0 <= i <= |ds|
      invariant DownloadsStep(s, st, bookName, ds) == DownloadsStep(cur, st, bookName, ds[i..])
    {
      assert ds[i..][0] == ds[i] && ds[i..][1..] == ds[i + 1..];
      cur := DownloadBook(cur, st, bookName, ds[i]).st;
      i := i + 1;
    }
    assert ds[i..] == [];
    r := Step(Done(()), cur);
  }

  /** One pass of `getProducts`' loop: the title, the authors, the downloads and each download. */
  method ProcessItem(s: State, st: Settings, mainPageUrl: string, item: Item, asWritten: bool) returns (r: Step<()>)
    ensures r == ItemStep(s, st, mainPageUrl, item, asWritten)
  {
    var title := BookTitle(item.titleText, item.subtitleText);
    var authors := GetBookAuthors(item.authorBlocks, asWritten);
    var g := GetBookDownloads(s, mainPageUrl, item.buttons);
    if g.out.Done? {
      r := DownloadAll(g.st, st, title + " - " + authors, g.out.value);
    } else {
      r := Step(Failed(g.out.reason), g.st);
    }
  }

  /** `getProducts`. */
  method GetProducts(s: State, st: Settings, mainPageUrl: string, items: seq<Item>, asWritten: bool) returns (r: Step<()>)
    ensures r == ItemsStep(s, st, mainPageUrl, items, asWritten)
  {
    r := Step(Done(()), s);
    var i := 0;
    while i < |items| && r.out.Done?
      invariant 0 <= i <= |items|
      invariant r.out.Done? ==> ItemsStep(s, st, mainPageUrl, items, asWritten) == ItemsStep(r.st, st, mainPageUrl, items[i..], asWritten)
      invariant !r.out.Done? ==> ItemsStep(s, st, mainPageUrl, items, asWritten) == r
    {
      var next := ProcessItem(r.st, st, mainPageUrl, items[i], asWritten);
      assert ItemsStep(r.st, st, mainPageUrl, items[i..], asWritten)
          == if next.out.Done? then ItemsStep(next.st, st, mainPageUrl, items[i + 1..], asWritten) else next by {
        assert items[i..][0] == items[i] && items[i..][1..] == items[i + 1..];
      }
      r := next;
      i := i + 1;
    }
    if r.out.Done? {
      assert items[i..] == [];
      r := Step(Done(()), r.st);
    }
  }
}
