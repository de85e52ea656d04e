/**
 * The Programista adapter: a WordPress login, and a bookshelf of magazine
 * panels; each panel names an issue ("Programista M/Y"), gets a folder
 * "Programista Y-MM", and each of its file cells is downloaded through the
 * size-checked download.
 */
module Programista {
  import opened Wrappers
  import opened Text
  import Files
  import Lists
  import opened Env
  import opened Bookstore

  const NOT_LOGGED_IN_MARKER := "/login/"
  const TYPE_ERROR := "TypeError: Cannot read property of null"

  // ---------------------------------------------------------------- login

  function LoginForm(acct: Account): map<string, string> {
    map["_wp_original_http_referer" := acct.mainPageUrl, "log" := acct.login, "pwd" := acct.password,
        "wp-submit" := "Zaloguj+się", "redirect_to" := "https://programistamag.pl/wp-admin/",
        "instance" := "", "action" := "login"]
  }

  /**
   * `logIn`: the login form is fetched after an exact zero pause (its
   * failure rejects), then the form is posted and the bookshelf checked
   * again. Neither the post nor the check has a rejection handler, so a
   * failure of either leaves the step unsettled; a check that finds the user
   * logged in resolves with its body, and one that does not rejects.
   */
  function LogIn(s: State, acct: Account): (r: Step<string>)
    ensures ReplyAt(s.replies, 0).TransportError? ==> r.out == Failed(ReplyAt(s.replies, 0).reason)
    ensures ReplyAt(s.replies, 0).Answer? ==>
      var post := ReplyAt(s.replies, 1); var check := ReplyAt(s.replies, 2);
      (post.TransportError? || check.TransportError? ==> r.out.Stalled?)
      && (post.Answer? && check.Answer? ==>
            (r.out.Done? <==> MarkerAbsent(check.response.finalUrl, NOT_LOGGED_IN_MARKER))
            && (r.out.Done? ==> r.out.value == check.response.body)
            && (!r.out.Done? ==> r.out == Failed(Mention("Could not log in as ", acct.login, ""))))
    ensures r.st.disk == s.disk
  {
    var v := GetPageBody(s, acct.loginFormUrl, 0, true);
    match v.out
    case Failed(e) => Step(Failed(e), v.st)
    case Stalled => Step(Stalled, v.st)
    case Done(_) =>
      var p := Post(v.st, acct.loginServiceUrl, LoginForm(acct));
      if p.reply.TransportError? then Step(Stalled, p.st)
      else
        var c := CheckIfUserIsLoggedIn(p.st, acct, NOT_LOGGED_IN_MARKER);
        match c.out
        case Done(check) =>
          if check.isLoggedIn then Step(Done(check.body), c.st)
          else Step(Failed(Mention("Could not log in as ", acct.login, "")), c.st)
        case Failed(_) => Step(Stalled, c.st)
        case Stalled => Step(Stalled, c.st)
  }

  // ---------------------------------------------------------------- issue names

  predicate IsDigit(c: char) { '0' <= c <= '9' }

  /** The number of leading decimal digits of `s`. */
  function DigitRun(s: string): (n: nat)
    ensures n <= |s|
    ensures forall i :: 0 <= i < n ==> IsDigit(s[i])
    ensures n < |s| ==> !IsDigit(s[n])
  {
    if s != [] && IsDigit(s[0]) then 1 + DigitRun(s[1..]) else 0
  }

  /** The groups of `/^(Programista) ([0-9]+)\/([0-9]+)/`: the month and the year as written. */
  datatype IssueNumber = IssueNumber(month: string, year: string)

  const PREFIX := "Programista "

  /** The match of the issue pattern at the start of `t`, if any. */
  function MatchIssue(t: string): (r: Option<IssueNumber>)
    ensures r.Some? ==> IsDigits(r.value.month) && IsDigits(r.value.year)
  {
    if !StartsWith(t, PREFIX) then None
    else
      var u := t[|PREFIX|..];
      var m := DigitRun(u);
      if m == 0 || m == |u| || u[m] != '/' then None
      else
        var v := u[m + 1..];
        var y := DigitRun(v);
        if y == 0 then None else Some(IssueNumber(u[..m], v[..y]))
  }

  /** A one-digit month gets a leading zero. */
  function PadMonth(month: string): (r: string)
    ensures |r| >= 2 || |month| == 0
    ensures |month| > 1 ==> r == month
    ensures |month| == 1 ==> r == "0" + month
  {
    if |month| > 1 then month else "0" + month
  }

  /** `createIssueName`: "Programista M/Y…" becomes "Programista Y-MM". */
  function CreateIssueName(n: IssueNumber): string {
    "Programista " + n.year + "-" + PadMonth(n.month)
  }

  /**
   * The issue name of a link text written as "Programista M/Y" followed by
   * anything that does not go on with a digit: the year, a dash, and the
   * month with at least two digits.
   */
  lemma IssueNameOf(month: string, year: string, rest: string)
    requires IsDigits(month) && IsDigits(year)
    requires rest == [] || !IsDigit(rest[0])
    ensures MatchIssue(PREFIX + month + "/" + year + rest) == Some(IssueNumber(month, year))
    ensures CreateIssueName(IssueNumber(month, year)) == "Programista " + year + "-" + PadMonth(month)
    ensures |PadMonth(month)| >= 2
  {
    var t := PREFIX + month + "/" + year + rest;
    assert t[..|PREFIX|] == PREFIX;
    var u := t[|PREFIX|..];
    assert u == month + ("/" + year + rest);
    DigitRunPrefix(month, "/" + year + rest);
    assert u[|month|] == '/';
    assert u[..|month|] == month;
    var v := u[|month| + 1..];
    assert v == year + rest;
    DigitRunPrefix(year, rest);
    assert v[..|year|] == year;
  }

  /** The digit run of digits followed by a non-digit is exactly those digits. */
  lemma {:induction false} DigitRunPrefix(d: string, rest: string)
    requires forall i :: 0 <= i < |d| ==> IsDigit(d[i])
    requires rest == [] || !IsDigit(rest[0])
    ensures DigitRun(d + rest) == |d|
  {
    if d != [] {
      assert (d + rest)[1..] == d[1..] + rest;
      DigitRunPrefix(d[1..], rest);
    } else {
      assert d + rest == rest;
    }
  }

  /** The words `oldName` drops, matched ignoring case. */
  const KEYWORDS: seq<string> := ["PDF", "EPUB", "MOBI", "AZW3", "Single", "Double", "page"]

  /**
   * `t.replace(/PDF|EPUB|MOBI|AZW3|Single|Double|page|[\s]+/gi, ' ')`: in
   * one pass, each format word and each run of white space becomes one
   * blank. Every white space left is a plain blank.
   */
  function Scrub(s: string): (r: string)
    ensures forall i :: 0 <= i < |r| && IsSpace(r[i]) ==> r[i] == ' '
    decreases |s|
  {
    if s == [] then ""
    else match FirstMatchCI(s, KEYWORDS, 0)
      case Some(j) =>
        assert KEYWORDS[j] != [];
        " " + Scrub(s[|KEYWORDS[j]|..])
      case None =>
        if IsSpace(s[0]) then " " + Scrub(DropSpaces(s[1..]))
        else [s[0]] + Scrub(s[1..])
  }

  /** At most one format word matches at any place: their first two letters, lower-cased, differ. */
  lemma WordsExclusive(s: string, i: nat, j: nat)
    requires i < |KEYWORDS| && j < |KEYWORDS|
    requires MatchesCI(s, KEYWORDS[i]) && MatchesCI(s, KEYWORDS[j])
    ensures i == j
  {
    var a, b := KEYWORDS[i], KEYWORDS[j];
    assert Lower(s[..|a|])[0] == Lower(a)[0] && Lower(s[..|a|])[1] == Lower(a)[1];
    assert Lower(s[..|b|])[0] == Lower(b)[0] && Lower(s[..|b|])[1] == Lower(b)[1];
  }

  /** A format word, in any case, at the front becomes one blank. */
  lemma ScrubWord(j: nat, s: string)
    requires j < |KEYWORDS| && MatchesCI(s, KEYWORDS[j])
    ensures Scrub(s) == " " + Scrub(s[|KEYWORDS[j]|..])
  {
    var m := FirstMatchCI(s, KEYWORDS, 0);
    WordsExclusive(s, m.value, j);
  }

  /** No format word starts with white space. */
  lemma NoWordAtSpace(s: string)
    requires s != [] && IsSpace(s[0])
    ensures FirstMatchCI(s, KEYWORDS, 0).None?
  {
    assert LowerChar(s[0]) == s[0];
    NoWordWithoutHead(s);
  }

  /** Every character of `w` is white space. */
  predicate AllSpace(w: string) {
    forall i :: 0 <= i < |w| ==> IsSpace(w[i])
  }

  /** Dropping the leading white space of spaces followed by a non-space leaves the rest. */
  lemma {:induction false} TrimStartSpaces(w: string, y: string)
    requires AllSpace(w)
    requires y == [] || !IsSpace(y[0])
    ensures TrimStart(w + y) == y
    decreases |w|
  {
    if w == [] {
      assert w + y == y;
    } else {
      assert (w + y)[1..] == w[1..] + y;
      TrimStartSpaces(w[1..], y);
    }
  }

  /** At white space, the whole run becomes one blank. */
  lemma ScrubAtSpace(s: string)
    requires s != [] && IsSpace(s[0])
    ensures Scrub(s) == " " + Scrub(DropSpaces(s[1..]))
  {
    NoWordAtSpace(s);
  }

  /** A run of white space at the front becomes one blank. */
  lemma ScrubSpaces(w: string, y: string)
    requires w != [] && AllSpace(w)
    requires y == [] || !IsSpace(y[0])
    ensures Scrub(w + y) == " " + Scrub(y)
  {
    var s := w + y;
    assert s[0] == w[0] && s[1..] == w[1..] + y;
    ScrubAtSpace(s);
    TrimStartSpaces(w[1..], y);
  }

  /** No white space and no format word starts at any place of `p` within `p + y`. */
  predicate PlainBefore(p: string, y: string) {
    forall i :: 0 <= i < |p| ==> !IsSpace(p[i]) && FirstMatchCI((p + y)[i..], KEYWORDS, 0).None?
  }

  /** A character that starts neither white space nor a format word is kept. */
  lemma ScrubAtChar(s: string)
    requires s != [] && !IsSpace(s[0]) && FirstMatchCI(s, KEYWORDS, 0).None?
    ensures Scrub(s) == [s[0]] + Scrub(s[1..])
  {
  }

  /** The same, for a character at the front of a part `p` followed by `y`. */
  lemma ScrubAtPlain(p: string, y: string)
    requires p != [] && !IsSpace(p[0]) && FirstMatchCI(p + y, KEYWORDS, 0).None?
    ensures Scrub(p + y) == [p[0]] + Scrub(p[1..] + y)
  {
    var s := p + y;
    assert s[0] == p[0];
    ScrubAtChar(s);
    assert s[1..] == p[1..] + y;
  }

  /** The first character of a plain part starts neither white space nor a format word. */
  lemma PlainBeforeHead(p: string, y: string)
    requires p != [] && PlainBefore(p, y)
    ensures !IsSpace(p[0]) && FirstMatchCI(p + y, KEYWORDS, 0).None?
  {
    assert (p + y)[0..] == p + y;
  }

  /** One kept character moves from the plain part to the front. */
  lemma PlainBeforeTail(p: string, y: string)
    requires p != [] && PlainBefore(p, y)
    ensures PlainBefore(p[1..], y)
  {
    forall i | 0 <= i < |p| - 1
      ensures !IsSpace(p[1..][i]) && FirstMatchCI((p[1..] + y)[i..], KEYWORDS, 0).None?
    {
      assert (p[1..] + y)[i..] == (p + y)[i + 1..];
    }
  }

  /** The first character of a plain part is kept, and the rest stays plain. */
  lemma ScrubPlainStep(p: string, y: string)
    requires p != [] && PlainBefore(p, y)
    ensures PlainBefore(p[1..], y)
    ensures Scrub(p + y) == [p[0]] + Scrub(p[1..] + y)
  {
    PlainBeforeHead(p, y);
    ScrubAtPlain(p, y);
    PlainBeforeTail(p, y);
  }

  /** Text where nothing is replaced is kept, character for character. */
  lemma {:induction false} ScrubPlainPrefix(p: string, y: string)
    requires PlainBefore(p, y)
    ensures Scrub(p + y) == p + Scrub(y)
    decreases |p|
  {
    if p == [] {
      assert p + y == y;
    } else {
      ScrubPlainStep(p, y);
      ScrubPlainPrefix(p[1..], y);
      assert [p[0]] + p[1..] == p;
      Lists.AppendAssoc([p[0]], p[1..], Scrub(y));
    }
  }

  /** A text without white space and without any format word is unchanged. */
  lemma ScrubPlain(t: string)
    requires PlainBefore(t, "")
    ensures Scrub(t) == t
  {
    ScrubPlainPrefix(t, "");
    assert t + "" == t;
  }

  /** The first two letters of a format word, lower-cased: pd, ep, mo, az, si, do, pa. */
  predicate WordHead(a: char, b: char) {
    (a == 'p' && (b == 'd' || b == 'a')) || (a == 'e' && b == 'p') || (a == 'm' && b == 'o')
    || (a == 'a' && b == 'z') || (a == 's' && b == 'i') || (a == 'd' && b == 'o')
  }

  /** Do the characters at `i` and `i + 1` open a format word? */
  predicate WordAt(s: string, i: nat)
    requires i < |s|
  {
    i + 1 < |s| && WordHead(LowerChar(s[i]), LowerChar(s[i + 1]))
  }

  /** The first `n` characters of `s`, checked one by one: none is white space or opens a format word. */
  predicate PlainRun(s: string, n: nat)
    requires n <= |s|
    decreases n
  {
    n == 0 || (!IsSpace(s[n - 1]) && !WordAt(s, n - 1) && PlainRun(s, n - 1))
  }

  /** Each format word opens with one of the heads `WordHead` names. */
  lemma HeadOf(j: nat)
    requires j < |KEYWORDS|
    ensures |KEYWORDS[j]| >= 2 && WordHead(LowerChar(KEYWORDS[j][0]), LowerChar(KEYWORDS[j][1]))
  {
  }

  /** A key matches, ignoring case, only text that opens with its first two letters. */
  lemma NoMatchWithoutHead(s: string, k: string)
    requires |k| >= 2
    requires |s| < 2 || LowerChar(s[0]) != LowerChar(k[0]) || LowerChar(s[1]) != LowerChar(k[1])
    ensures !MatchesCI(s, k)
  {
    if |k| <= |s| {
      assert Lower(s[..|k|])[0] == LowerChar(s[0]) && Lower(s[..|k|])[1] == LowerChar(s[1]);
      assert Lower(k)[0] == LowerChar(k[0]) && Lower(k)[1] == LowerChar(k[1]);
    }
  }

  /** No format word matches at the front of `s`. */
  predicate MatchesNoWord(s: string) {
    forall j :: 0 <= j < |KEYWORDS| ==> !MatchesCI(s, KEYWORDS[j])
  }

  /** Text that does not open with a format word's first two letters matches no format word. */
  lemma HeadlessMatchesNoWord(s: string)
    requires |s| < 2 || !WordHead(LowerChar(s[0]), LowerChar(s[1]))
    ensures MatchesNoWord(s)
  {
    forall j | 0 <= j < |KEYWORDS|
      ensures !MatchesCI(s, KEYWORDS[j])
    {
      HeadOf(j);
      NoMatchWithoutHead(s, KEYWORDS[j]);
    }
  }

  /** When no format word matches, the alternation finds none. */
  lemma NoWordNoMatch(s: string)
    requires MatchesNoWord(s)
    ensures FirstMatchCI(s, KEYWORDS, 0).None?
  {
  }

  /** Text that does not open with a format word's first two letters gives the alternation no match. */
  lemma NoWordWithoutHead(s: string)
    requires |s| < 2 || !WordHead(LowerChar(s[0]), LowerChar(s[1]))
    ensures FirstMatchCI(s, KEYWORDS, 0).None?
  {
    HeadlessMatchesNoWord(s);
    NoWordNoMatch(s);
  }

  lemma {:induction false} PlainRunAt(s: string, n: nat, i: nat)
    requires n <= |s| && PlainRun(s, n) && i < n
    ensures !IsSpace(s[i]) && !WordAt(s, i)
    decreases n
  {
    if i < n - 1 {
      PlainRunAt(s, n - 1, i);
    }
  }

  /** The character-by-character check gives `PlainBefore`. */
  lemma PlainRunBefore(p: string, y: string)
    requires PlainRun(p + y, |p|)
    ensures PlainBefore(p, y)
  {
    var s := p + y;
    forall i | 0 <= i < |p|
      ensures !IsSpace(p[i]) && FirstMatchCI(s[i..], KEYWORDS, 0).None?
    {
      PlainRunAt(s, |p|, i);
      assert s[i] == p[i] && s[i..][0] == s[i];
      if i + 1 < |s| {
        assert s[i..][1] == s[i + 1];
      }
      NoWordWithoutHead(s[i..]);
    }
  }

  /** A lone format word, alone, becomes one blank. */
  lemma ScrubLoneWord(j: nat)
    requires j < |KEYWORDS|
    ensures Scrub(KEYWORDS[j]) == " "
  {
    var k := KEYWORDS[j];
    assert k[..|k|] == k;
    ScrubWord(j, k);
    assert k[|k|..] == [];
  }

  /** Neither white space nor a format word starts at a digit or a slash. */
  lemma NumberPlain(p: string, y: string)
    requires forall i :: 0 <= i < |p| ==> IsDigit(p[i]) || p[i] == '/'
    ensures PlainBefore(p, y)
  {
    var s := p + y;
    forall i | 0 <= i < |p|
      ensures !IsSpace(p[i]) && FirstMatchCI(s[i..], KEYWORDS, 0).None?
    {
      assert s[i..][0] == p[i];
      NoWordWithoutHead(s[i..]);
    }
  }

  /** Text after the first `n + 1` characters does not change the check of the first `n`. */
  lemma {:induction false} PlainRunExtend(s: string, n: nat, z: string)
    requires n < |s| && PlainRun(s, n)
    ensures PlainRun(s + z, n)
    decreases n
  {
    if n > 0 {
      PlainRunExtend(s, n - 1, z);
      assert (s + z)[n - 1] == s[n - 1] && (s + z)[n] == s[n];
    }
  }

  /** The word "Programista" of an issue link is kept, whatever follows its blank. */
  lemma PrefixPlain(y: string)
    ensures PlainBefore("Programista", " " + y)
  {
    assert PlainRun(PREFIX, 6);
    assert PlainRun(PREFIX, 11);
    PlainRunExtend(PREFIX, 11, y);
    assert PREFIX + y == "Programista" + (" " + y);
    PlainRunBefore("Programista", " " + y);
  }

  /** A single blank before a character that is not white space stays one blank. */
  lemma ScrubBlank(y: string)
    requires y == [] || !IsSpace(y[0])
    ensures Scrub(" " + y) == " " + Scrub(y)
  {
    ScrubSpaces(" ", y);
  }

  /** A word that neither starts nor ends with white space and scrubs to one blank, as each format word does. */
  predicate ScrubsToBlank(k: string) {
    k != [] && !IsSpace(k[0]) && !IsSpace(k[|k| - 1]) && Scrub(k) == " "
  }

  /** Letters and digits are not white space. */
  lemma AlnumNotSpace(c: char)
    requires IsAlnum(c)
    ensures !IsSpace(c)
  {
  }

  /** Each format word starts and ends with a letter or a digit. */
  lemma FormatWordEnds(j: nat)
    requires j < |KEYWORDS|
    ensures IsAlnum(KEYWORDS[j][0]) && IsAlnum(KEYWORDS[j][|KEYWORDS[j]| - 1])
  {
  }

  /** Every format word is such a word. */
  lemma FormatWordBlank(j: nat)
    requires j < |KEYWORDS|
    ensures ScrubsToBlank(KEYWORDS[j])
  {
    var k := KEYWORDS[j];
    FormatWordEnds(j);
    AlnumNotSpace(k[0]);
    AlnumNotSpace(k[|k| - 1]);
    ScrubLoneWord(j);
  }

  /** A format word after a blank: the blank and the word give two blanks. */
  lemma ScrubBlankWord(k: string)
    requires ScrubsToBlank(k)
    ensures Scrub(" " + k) == "  "
  {
    ScrubBlank(k);
  }

  /** The number, the blank and the format word of an issue link, scrubbed. */
  lemma ScrubNumberWord(n: string, k: string)
    requires forall i :: 0 <= i < |n| ==> IsDigit(n[i]) || n[i] == '/'
    requires ScrubsToBlank(k)
    ensures Scrub(n + (" " + k)) == n + "  "
  {
    NumberPlain(n, " " + k);
    ScrubPlainPrefix(n, " " + k);
    ScrubBlankWord(k);
  }

  /** The blank after "Programista", then the number and the format word, scrubbed. */
  lemma ScrubBlankNumberWord(n: string, k: string)
    requires n != [] && forall i :: 0 <= i < |n| ==> IsDigit(n[i]) || n[i] == '/'
    requires ScrubsToBlank(k)
    ensures Scrub(" " + (n + (" " + k))) == " " + (n + "  ")
  {
    var y := n + (" " + k);
    assert y[0] == n[0];
    ScrubBlank(y);
    ScrubNumberWord(n, k);
  }

  /** The prefix, the number, the blank and the format word of an issue link, as one text. */
  lemma FormatLinkParts(n: string, k: string)
    ensures PREFIX + n + " " + k == "Programista" + (" " + (n + (" " + k)))
    ensures "Programista" + (" " + (n + "  ")) == PREFIX + n + "  "
  {
  }

  /** The word "Programista" and its blank: the word is kept, whatever follows. */
  lemma ScrubPrefixWord(y: string)
    ensures Scrub("Programista" + (" " + y)) == "Programista" + Scrub(" " + y)
  {
    PrefixPlain(y);
    ScrubPlainPrefix("Programista", " " + y);
  }

  /**
   * An issue link "Programista M/Y" followed by a blank and a format word:
   * the word becomes a blank, and both blanks stay.
   */
  lemma ScrubFormatLink(n: string, k: string)
    requires n != [] && forall i :: 0 <= i < |n| ==> IsDigit(n[i]) || n[i] == '/'
    requires ScrubsToBlank(k)
    ensures Scrub(PREFIX + n + " " + k) == PREFIX + n + "  "
  {
    FormatLinkParts(n, k);
    ScrubPrefixWord(n + (" " + k));
    ScrubBlankNumberWord(n, k);
  }

  /** The scrubbed issue link, trimmed, loses the blanks the format word left. */
  lemma TrimScrubbedLink(n: string)
    requires n != [] && !IsSpace(n[|n| - 1])
    ensures Trim(PREFIX + n + "  ") == PREFIX + n
  {
    var a := PREFIX + n;
    assert (a + "  ")[0] == 'P';
    assert a[|a| - 1] == n[|n| - 1];
    TrimEndSpaces(a, "  ");
  }

  /** Month, slash and year: digits and one slash. */
  lemma IssueNumberText(month: string, year: string)
    requires IsDigits(month) && IsDigits(year)
    ensures var n := month + "/" + year;
      n != [] && !IsSpace(n[|n| - 1]) && forall i :: 0 <= i < |n| ==> IsDigit(n[i]) || n[i] == '/'
  {
  }

  /** The name the link texts use for the issue, and the name the files are stored under. */
  datatype IssueTitle = IssueTitle(oldName: string, correctedName: string)

  function TitleOf(text: string, n: IssueNumber): IssueTitle {
    IssueTitle(Trim(Scrub(text)), CreateIssueName(n))
  }

  /** The issue-pattern match of each link's trimmed text. */
  function Matches(links: seq<string>): (ms: seq<Option<IssueNumber>>)
    ensures |ms| == |links|
  {
    seq(|links|, i requires 0 <= i < |links| => MatchIssue(Trim(links[i])))
  }

  /** The first index from `from` on where a match was found. */
  function FirstMatch(ms: seq<Option<IssueNumber>>, from: nat): (r: Option<nat>)
    requires from <= |ms|
    ensures r.Some? ==> from <= r.value < |ms| && ms[r.value].Some?
    ensures r.Some? ==> forall j :: from <= j < r.value ==> ms[j].None?
    ensures r.None? ==> forall j :: from <= j < |ms| ==> ms[j].None?
    decreases |ms| - from
  {
    if from == |ms| then None
    else if ms[from].Some? then Some(from)
    else FirstMatch(ms, from + 1)
  }

  /** What `getIssueTitle` returns: the title data of the first matching link, or nothing. */
  function IssueTitleOf(links: seq<string>): Option<IssueTitle> {
    var ms := Matches(links);
    match FirstMatch(ms, 0)
    case Some(i) => Some(TitleOf(Trim(links[i]), ms[i].value))
    case None => None
  }

  /** A single link that matches the issue pattern gives its title. */
  lemma OneLinkTitle(link: string, m: IssueNumber)
    requires MatchIssue(Trim(link)) == Some(m)
    ensures IssueTitleOf([link]) == Some(TitleOf(Trim(link), m))
  {
    assert Matches([link])[0] == Some(m);
  }

  /** How the parts of an issue link with a format word join. */
  lemma FormatLinkJoins(month: string, year: string, k: string)
    ensures PREFIX + month + "/" + year + " " + k == PREFIX + (month + "/" + year) + " " + k
    ensures PREFIX + (month + "/" + year) == PREFIX + month + "/" + year
  {
  }

  /** A link with a format word at its end neither starts nor ends with white space. */
  lemma FormatLinkTrimmed(a: string, k: string)
    requires a != [] && !IsSpace(a[0]) && ScrubsToBlank(k)
    ensures Trim(a + " " + k) == a + " " + k
  {
    var link := a + " " + k;
    assert link[0] == a[0] && link[|link| - 1] == k[|k| - 1];
  }

  /** The issue link is already trimmed. */
  lemma WordLinkTrimmed(month: string, year: string, k: string)
    requires ScrubsToBlank(k)
    ensures Trim(PREFIX + month + "/" + year + " " + k) == PREFIX + month + "/" + year + " " + k
  {
    var a := PREFIX + month + "/" + year;
    assert a[0] == 'P';
    FormatLinkTrimmed(a, k);
  }

  /** The issue pattern matches the link, whatever word follows its blank. */
  lemma WordLinkPattern(month: string, year: string, k: string)
    requires IsDigits(month) && IsDigits(year)
    ensures MatchIssue(PREFIX + month + "/" + year + " " + k) == Some(IssueNumber(month, year))
  {
    Lists.AppendAssoc(PREFIX + month + "/" + year, " ", k);
    IssueNameOf(month, year, " " + k);
  }

  /** The issue link's title is made of the whole link. */
  lemma WordLinkMatch(month: string, year: string, k: string)
    requires IsDigits(month) && IsDigits(year) && ScrubsToBlank(k)
    ensures IssueTitleOf([PREFIX + month + "/" + year + " " + k])
      == Some(TitleOf(PREFIX + month + "/" + year + " " + k, IssueNumber(month, year)))
  {
    WordLinkTrimmed(month, year, k);
    WordLinkPattern(month, year, k);
    OneLinkTitle(PREFIX + month + "/" + year + " " + k, IssueNumber(month, year));
  }

  /** The old name of the issue link: scrubbed and trimmed, the word and the blanks are gone. */
  lemma WordLinkOldName(month: string, year: string, k: string)
    requires IsDigits(month) && IsDigits(year) && ScrubsToBlank(k)
    ensures Trim(Scrub(PREFIX + month + "/" + year + " " + k)) == PREFIX + month + "/" + year
  {
    var n := month + "/" + year;
    FormatLinkJoins(month, year, k);
    IssueNumberText(month, year);
    ScrubFormatLink(n, k);
    TrimScrubbedLink(n);
  }

  /**
   * A link "Programista M/Y", a blank and a word that scrubs to a blank: the
   * old name is the link without the word, and the files go under
   * "Programista Y-MM".
   */
  lemma WordLinkTitle(month: string, year: string, k: string)
    requires IsDigits(month) && IsDigits(year) && ScrubsToBlank(k)
    ensures IssueTitleOf([PREFIX + month + "/" + year + " " + k])
      == Some(IssueTitle(PREFIX + month + "/" + year, "Programista " + year + "-" + PadMonth(month)))
  {
    WordLinkMatch(month, year, k);
    WordLinkOldName(month, year, k);
  }

  /**
   * An issue link "Programista M/Y FORMAT", such as "Programista 3/2019 PDF":
   * the old name drops the format word ("Programista 3/2019"), and the
   * files go under "Programista Y-MM" ("Programista 2019-03").
   */
  lemma FormatLinkTitle(month: string, year: string, j: nat)
    requires IsDigits(month) && IsDigits(year) && j < |KEYWORDS|
    ensures IssueTitleOf([PREFIX + month + "/" + year + " " + KEYWORDS[j]])
      == Some(IssueTitle(PREFIX + month + "/" + year, "Programista " + year + "-" + PadMonth(month)))
  {
    FormatWordBlank(j);
    WordLinkTitle(month, year, KEYWORDS[j]);
  }

  /** `getIssueTitle`: the loop over the panel's links, returning at the first match. */
  method GetIssueTitle(links: seq<string>) returns (r: Option<IssueTitle>)
    ensures r == IssueTitleOf(links)
    ensures r.None? <==> forall j :: 0 <= j < |links| ==> Matches(links)[j].None?
  {
    ghost var ms := Matches(links);
    var i := 0;
    while i < |links|
      invariant 0 <= i <= |links|
      invariant forall j :: 0 <= j < i ==> ms[j].None?
    {
      var text := Trim(links[i]);
      var m := MatchAt(links, i);
      if m.Some? {
        TitleAt(links, i);
        return Some(TitleOf(text, m.value));
      }
      NoneSoFar(ms, i);
      i := i + 1;
    }
    TitleAt(links, i);
    r := None;
  }

  /** One more link without a match. */
  lemma NoneSoFar(ms: seq<Option<IssueNumber>>, i: nat)
    requires i < |ms| && ms[i].None?
    requires forall j :: 0 <= j < i ==> ms[j].None?
    ensures forall j :: 0 <= j < i + 1 ==> ms[j].None?
  {
  }

  /** The title search stops at the first link that matches, or finds nothing. */
  lemma TitleAt(links: seq<string>, i: nat)
    requires i <= |links|
    requires forall j :: 0 <= j < i ==> Matches(links)[j].None?
    requires i < |links| ==> Matches(links)[i].Some?
    ensures i < |links| ==> IssueTitleOf(links) == Some(TitleOf(Trim(links[i]), Matches(links)[i].value))
    ensures i == |links| ==> IssueTitleOf(links) == None
  {
    FirstMatchIs(Matches(links), 0, i);
  }

  /** The issue-pattern match of link `i`'s trimmed text. */
  method MatchAt(links: seq<string>, i: nat) returns (m: Option<IssueNumber>)
    requires i < |links|
    ensures m == Matches(links)[i]
  {
    m := MatchIssue(Trim(links[i]));
  }

  /** The first match is the least index that matches. */
  lemma {:induction false} FirstMatchIs(ms: seq<Option<IssueNumber>>, from: nat, i: nat)
    requires from <= i <= |ms|
    requires forall j :: from <= j < i ==> ms[j].None?
    requires i < |ms| ==> ms[i].Some?
    ensures FirstMatch(ms, from) == if i < |ms| then Some(i) else None
    decreases i - from
  {
    if from < i {
      FirstMatchIs(ms, from + 1, i);
    }
  }

  // ---------------------------------------------------------------- files

  /** What `getFileMetadata` makes of a link text and address. */
  datatype FileData = FileData(fileName: string, fileExtension: string, fileUrl: string)

  /**
   * `getFileMetadata`: the extension is the trailing run of letters and
   * digits of the address (an address without one throws); the name drops
   * the first upper-case spelling of the extension, squeezes white space
   * runs to one blank and loses a trailing blank.
   */
  function GetFileMetadata(name: string, url: string): (r: Outcome<FileData>)
    ensures !r.Stalled?
    ensures r.Done? <==> url != [] && IsAlnum(url[|url| - 1])
    ensures r.Done? ==>
      var ext := r.value.fileExtension;
      ext != [] && EndsWith(url, ext) && (|ext| < |url| ==> !IsAlnum(url[|url| - |ext| - 1]))
      && (forall i :: 0 <= i < |ext| ==> IsAlnum(ext[i]))
      && r.value.fileUrl == url
      && (r.value.fileName == [] || !IsSpace(r.value.fileName[|r.value.fileName| - 1]))
      && (forall i :: 0 <= i < |r.value.fileName| - 1 ==> !(IsSpace(r.value.fileName[i]) && IsSpace(r.value.fileName[i + 1])))
  {
    var n := AlnumTail(url);
    if n == 0 then Failed(TYPE_ERROR)
    else
      var ext := url[|url| - n..];
      assert url[|url| - |ext|..] == ext;
      Done(FileData(FileName(name, ext), ext, url))
  }

  function FileName(name: string, ext: string): (r: string)
    ensures r == [] || !IsSpace(r[|r| - 1])
    ensures forall i :: 0 <= i < |r| - 1 ==> !(IsSpace(r[i]) && IsSpace(r[i + 1]))
  {
    var c := CollapseSpaces(ReplaceFirst(name, Upper(ext), ""));
    var r := TrimEnd(c);
    assert forall i :: 0 <= i < |r| ==> r[i] == c[i];
    r
  }

  /**
   * Only the first upper-case spelling of the extension goes: the text
   * before it and the text after it are joined, then spacing is squeezed
   * and the end trimmed.
   */
  lemma FileNameDropsFirstExtension(a: string, b: string, ext: string)
    requires ext != [] && UpperChar(ext[0]) !in a
    ensures FileName(a + Upper(ext) + b, ext) == TrimEnd(CollapseSpaces(a + b))
  {
    var u := Upper(ext);
    var t := a + u + b;
    IndexOfSeparator(a, u, b);
    assert t[..|a|] == a && t[|a| + |u|..] == b;
    var r := ReplaceFirst(t, u, "");
    assert r[..|a|] == a && r[|a|..] == b;
    assert r == r[..|a|] + r[|a|..];
  }

  /**
   * A link text that is a tidy title, a blank and the upper-case
   * extension gives back the title.
   */
  lemma FileNameOfLabel(a: string, ext: string)
    requires a != [] && Trimmed(a) && SingleSpaced(a)
    requires ext != [] && IsAlnum(ext[0]) && UpperChar(ext[0]) !in a
    ensures FileName(a + " " + Upper(ext), ext) == a
  {
    assert a + " " + Upper(ext) == (a + " ") + Upper(ext) + "";
    FileNameDropsFirstExtension(a + " ", "", ext);
    assert (a + " ") + "" == a + " ";
    SingleSpacedAppend(a, " ");
    CollapseSingleSpaced(a + " ");
    assert (a + " ")[..|a|] == a;
  }

  /**
   * The metadata of a link whose address ends in `.` and the extension,
   * and whose text is a tidy title followed by the upper-case extension:
   * the title, the extension and the address.
   */
  lemma MetadataOfLink(a: string, stem: string, ext: string)
    requires a != [] && Trimmed(a) && SingleSpaced(a)
    requires ext != [] && (forall i :: 0 <= i < |ext| ==> IsAlnum(ext[i])) && UpperChar(ext[0]) !in a
    ensures GetFileMetadata(a + " " + Upper(ext), stem + "." + ext) == Done(FileData(a, ext, stem + "." + ext))
  {
    var url := stem + "." + ext;
    var n := AlnumTail(url);
    assert url[|url| - |ext| - 1] == '.';
    assert forall i :: |url| - |ext| <= i < |url| ==> url[i] == ext[i - (|url| - |ext|)];
    assert n == |ext|;
    assert url[|url| - n..] == ext;
    FileNameOfLabel(a, ext);
  }

  // ---------------------------------------------------------------- downloads

  /**
   * One table cell of a panel as the selectors read it: whether it has a
   * file-asset or file-media sibling, the text of its link and the link's
   * address (none when the cell holds no link).
   */
  datatype Cell = Cell(hasFileSibling: bool, linkText: string, href: Option<string>)

  /** A magazine panel: the texts of its links and its table cells. */
  datatype Panel = Panel(links: seq<string>, cells: seq<Cell>)

  /** `downloadIssueFile`: a present, non-empty file is skipped; otherwise the size-checked download. */
  function DownloadIssueFile(s: State, st: Settings, dir: string, fd: FileData): (r: Step<()>)
    ensures !r.out.Stalled?
    ensures var name := st.pathName(fd.fileName + "." + fd.fileExtension);
      (Files.ElementExists(s.disk, dir, name) ==> r == Step(Done(()), s))
      && (!Files.ElementExists(s.disk, dir, name) ==> r == CheckSizeAndDownloadFile(s, st.maxFileSize, fd.fileUrl, dir, name))
  {
    var name := st.pathName(fd.fileName + "." + fd.fileExtension);
    if Files.ElementExists(s.disk, dir, name) then Step(Done(()), s)
    else CheckSizeAndDownloadFile(s, st.maxFileSize, fd.fileUrl, dir, name)
  }

  /**
   * One cell of `downloadIssue`'s loop: a cell without a file sibling is
   * passed over; reading the link and the file data happens outside the
   * `try`, so a missing link or an address without an extension rejects;
   * the download itself is inside it, so its rejection is logged and the
   * loop goes on.
   */
  function CellStep(s: State, st: Settings, t: IssueTitle, dir: string, c: Cell): (r: Step<()>)
    ensures !r.out.Stalled?
    ensures !c.hasFileSibling ==> r == Step(Done(()), s)
    ensures r.out.Failed? ==> r.st == s
  {
    if !c.hasFileSibling then Step(Done(()), s)
    else match c.href
      case None => Step(Failed(TYPE_ERROR), s)
      case Some(url) =>
        match GetFileMetadata(ReplaceFirst(c.linkText, t.oldName, t.correctedName), url)
        case Done(fd) =>
          var d := DownloadIssueFile(s, st, dir, fd);
          Step(Done(()), d.st)
        case Failed(e) => Step(Failed(e), s)
        case Stalled => Step(Stalled, s)
  }

  function CellsStep(s: State, st: Settings, t: IssueTitle, dir: string, cells: seq<Cell>): (r: Step<()>)
    ensures !r.out.Stalled?
    decreases |cells|
  {
    if cells == [] then Step(Done(()), s)
    else
      var r := CellStep(s, st, t, dir, cells[0]);
      if r.out.Done? then CellsStep(r.st, st, t, dir, cells[1..]) else r
  }

  function IssueDir(st: Settings, t: IssueTitle): string {
    st.booksDir + "/" + st.pathName(t.correctedName)
  }

  /**
   * `downloadIssue`: a panel with no issue link throws (the title data is
   * null); otherwise the issue's folder is ensured and the cells walked.
   */
  function IssueStep(s: State, st: Settings, p: Panel): (r: Step<()>)
    ensures !r.out.Stalled?
    ensures IssueTitleOf(p.links).None? ==> r == Step(Failed(TYPE_ERROR), s)
  {
    match IssueTitleOf(p.links)
    case None => Step(Failed(TYPE_ERROR), s)
    case Some(t) =>
      var dir := IssueDir(st, t);
      CellsStep(EnsureDirectory(s, dir), st, t, dir, p.cells)
  }

  /** `getProducts`: the panels in order, with no `try`: the first that rejects ends the walk. */
  function IssuesStep(s: State, st: Settings, panels: seq<Panel>): (r: Step<()>)
    ensures !r.out.Stalled?
    decreases |panels|
  {
    if panels == [] then Step(Done(()), s)
    else
      var r := IssueStep(s, st, panels[0]);
      if r.out.Done? then IssuesStep(r.st, st, panels[1..]) else r
  }

  /** The whole run; `scrape` stands for the selector reading the bookshelf's panels. */
  function Run(s: State, st: Settings, acct: Account, scrape: string -> seq<Panel>): Step<()> {
    GetBooks(s, st.cookiesDir, acct,
             s' => CheckIfUserIsLoggedIn(s', acct, NOT_LOGGED_IN_MARKER),
             s' => LogIn(s', acct),
             (s', body) => IssuesStep(s', st, scrape(body)))
  }

  // ---------------------------------------------------------------- properties

  /**
   * A panel without an issue link aborts the walk: the panels after it are
   * never visited and nothing more is requested or written.
   */
  lemma NullTitleAborts(s: State, st: Settings, panels: seq<Panel>)
    requires panels != [] && IssueTitleOf(panels[0].links).None?
    ensures IssuesStep(s, st, panels) == Step(Failed(TYPE_ERROR), s)
  {
  }

  /**
   * A file whose download rejects does not stop the panel: the next cells
   * are walked from the state the failed download left.
   */
  lemma FailedDownloadLogged(s: State, st: Settings, t: IssueTitle, dir: string, cells: seq<Cell>)
    requires cells != [] && cells[0].hasFileSibling && cells[0].href.Some?
    requires GetFileMetadata(ReplaceFirst(cells[0].linkText, t.oldName, t.correctedName), cells[0].href.value).Done?
    ensures var fd := GetFileMetadata(ReplaceFirst(cells[0].linkText, t.oldName, t.correctedName), cells[0].href.value).value;
      CellsStep(s, st, t, dir, cells) == CellsStep(DownloadIssueFile(s, st, dir, fd).st, st, t, dir, cells[1..])
  {
  }

  // ---------------------------------------------------------------- loops

  /** `downloadIssue`'s cell loop. */
  method ProcessCells(s: State, st: Settings, t: IssueTitle, dir: string, cells: seq<Cell>) returns (r: Step<()>)
    ensures r == CellsStep(s, st, t, dir, cells)
  {
    r := Step(Done(()), s);
    var i := 0;
    while i < |cells| && r.out.Done?
      invariant 0 <= i <= |cells|
      invariant r.out.Done? ==> CellsStep(s, st, t, dir, cells) == CellsStep(r.st, st, t, dir, cells[i..])
      invariant !r.out.Done? ==> CellsStep(s, st, t, dir, cells) == r
    {
      var next := CellStep(r.st, st, t, dir, cells[i]);
      assert CellsStep(r.st, st, t, dir, cells[i..])
          == if next.out.Done? then CellsStep(next.st, st, t, dir, cells[i + 1..]) else next by {
        assert cells[i..][0] == cells[i] && cells[i..][1..] == cells[i + 1..];
      }
      r := next;
      i := i + 1;
    }
    if r.out.Done? {
      assert cells[i..] == [];
      r := Step(Done(()), r.st);
    }
  }

  /** `downloadIssue`. */
  method DownloadIssue(s: State, st: Settings, p: Panel) returns (r: Step<()>)
    ensures r == IssueStep(s, st, p)
  {
    var t := GetIssueTitle(p.links);
    if t.None? {
      return Step(Failed(TYPE_ERROR), s);
    }
    var dir := IssueDir(st, t.value);
    r := ProcessCells(EnsureDirectory(s, dir), st, t.value, dir, p.cells);
  }

  /** `getProducts`: the panel loop. */
  method GetProducts(s: State, st: Settings, panels: seq<Panel>) returns (r: Step<()>)
    ensures r == IssuesStep(s, st, panels)
  {
    r := Step(Done(()), s);
    var i := 0;
    while i < |panels| && r.out.Done?
      invariant 0 <= i <= |panels|
      invariant r.out.Done? ==> IssuesStep(s, st, panels) == IssuesStep(r.st, st, panels[i..])
      invariant !r.out.Done? ==> IssuesStep(s, st, panels) == r
    {
      var next := DownloadIssue(r.st, st, panels[i]);
      assert IssuesStep(r.st, st, panels[i..])
          == if next.out.Done? then IssuesStep(next.st, st, panels[i + 1..]) else next by {
        assert panels[i..][0] == panels[i] && panels[i..][1..] == panels[i + 1..];
      }
      r := next;
      i := i + 1;
    }
    if r.out.Done? {
      assert panels[i..] == [];
      r := Step(Done(()), r.st);
    }
  }
}
