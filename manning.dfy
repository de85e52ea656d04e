/**
 * The Manning adapter: a login through a form whose hidden fields are read
 * from the login page, a separate list of licences fetched after login,
 * and for each licence a POST of the chosen formats streamed into one file,
 * followed by the code samples when the product has them.
 */
module Manning {
  import opened Wrappers
  import opened Text
  import Lists
  import Files
  import opened Env
  import opened Bookstore

  const NOT_LOGGED_IN_MARKER := "login"

  /** What reading a property of `undefined` throws. */
  const TYPE_ERROR := "TypeError: Cannot read property of undefined"

  /** What `push` on a value that is not an array throws. */
  const PUSH_ERROR := "TypeError: push is not a function"

  // ---------------------------------------------------------------- login

  /** The hidden inputs of the login form: `lt`, `execution` and `_eventId`. */
  datatype LoginData = LoginData(lt: string, execution: string, eventId: string)

  function LoginForm(acct: Account, d: LoginData): map<string, string> {
    map["username" := acct.login, "password" := acct.password, "lt" := d.lt,
        "execution" := d.execution, "_eventId" := d.eventId, "submit" := ""]
  }

  /**
   * `logIn`: the login page is fetched and its hidden inputs read (`formData`
   * stands for the selectors), then the form is posted; logged in exactly
   * when the POST's final address lacks "login", and then the answer's body
   * is the bookshelf. Neither request has a rejection handler, so a failed
   * request leaves the login pending for ever.
   */
  function LogIn(s: State, acct: Account, formData: string -> LoginData): (r: Step<string>)
    ensures r.st.disk == s.disk
    ensures r.out.Stalled? <==> ReplyAt(s.replies, 0).TransportError? || ReplyAt(s.replies, 1).TransportError?
    ensures r.out.Done? <==>
      ReplyAt(s.replies, 0).Answer? && ReplyAt(s.replies, 1).Answer?
      && MarkerAbsent(ReplyAt(s.replies, 1).response.finalUrl, NOT_LOGGED_IN_MARKER)
    ensures r.out.Done? ==> r.out.value == ReplyAt(s.replies, 1).response.body
    ensures r.out.Failed? ==> r.out.reason == "Could not log in as " + acct.login
    ensures ReplyAt(s.replies, 0).Answer? ==>
      r.st.trace == s.trace + [Request(GET, acct.loginFormUrl, Plain),
                               Request(POST, acct.loginServiceUrl,
                                       FormOf(LoginForm(acct, formData(ReplyAt(s.replies, 0).response.body))))]
  {
    var g := Get(s, acct.loginFormUrl);
    match g.reply
    case TransportError(_, _, _) => Step(Stalled, g.st)
    case Answer(page) =>
      ReplyAtDrop(s.replies, 1, 0);
      var p := Post(g.st, acct.loginServiceUrl, LoginForm(acct, formData(page.body)));
      match p.reply
      case TransportError(_, _, _) => Step(Stalled, p.st)
      case Answer(resp) =>
        if MarkerAbsent(resp.finalUrl, NOT_LOGGED_IN_MARKER) then Step(Done(resp.body), p.st)
        else Step(Failed(Mention("Could not log in as ", acct.login, "")), p.st)
  }

  // ---------------------------------------------------------------- authors

  /** The number of leading 's' characters. */
  function SRun(s: string): (n: nat)
    ensures n <= |s|
    ensures forall i :: 0 <= i < n ==> s[i] == 's'
    ensures n < |s| ==> s[n] != 's'
  {
    if s != [] && s[0] == 's' then 1 + SRun(s[1..]) else 0
  }

  /** `s.replace(/Foreword([s]*)/g, ' foreword$1 ')`. */
  function Forewords(s: string): string
    decreases |s|
  {
    if s == [] then ""
    else if StartsWith(s, "Foreword") then
      var n := SRun(s[8..]);
      " foreword" + s[8..8 + n] + " " + Forewords(s[8 + n..])
    else [s[0]] + Forewords(s[1..])
  }

  /** Text without a capital 'F' holds no "Foreword" to rewrite. */
  lemma {:induction false} NoForewords(s: string)
    requires 'F' !in s
    ensures Forewords(s) == s
    decreases |s|
  {
    if s != [] {
      assert !StartsWith(s, "Foreword") by {
        if 8 <= |s| { assert s[..8][0] == s[0] != 'F'; }
      }
      NoForewords(s[1..]);
      assert s == [s[0]] + s[1..];
    }
  }

  /** Skips the rest of a match of `[,]+[\s]*` repeated: commas and white space. */
  function DropCommaSpaces(s: string): (r: string)
    ensures |r| <= |s|
    ensures r == [] || (r[0] != ',' && !IsSpace(r[0]))
  {
    if s != [] && (s[0] == ',' || IsSpace(s[0])) then DropCommaSpaces(s[1..]) else s
  }

  /**
   * `s.replace(/([,]+[\s]*)+/g, ', ')`: every run of commas and white space
   * that starts with a comma becomes ", ". Afterwards each comma is followed
   * by one blank and then by the end or a character that is neither a comma
   * nor white space.
   */
  function CollapseCommas(s: string): (r: string)
    ensures s == [] <==> r == []
    ensures s != [] ==> r[0] == s[0]
    decreases |s|
  {
    if s == [] then ""
    else if s[0] == ',' then ", " + CollapseCommas(DropCommaSpaces(s[1..]))
    else [s[0]] + CollapseCommas(s[1..])
  }

  /** Each comma is spaced: a comma run leaves a comma, one blank, and then the end or a name's character. */
  predicate CommasSpaced(r: string) {
    forall i :: 0 <= i < |r| && r[i] == ',' ==>
      i + 1 < |r| && r[i + 1] == ' ' && (i + 2 == |r| || (r[i + 2] != ',' && !IsSpace(r[i + 2])))
  }

  lemma {:induction false} CollapseCommasSpaced(s: string)
    ensures CommasSpaced(CollapseCommas(s))
    decreases |s|
  {
    if s != [] {
      if s[0] == ',' {
        var tail := CollapseCommas(DropCommaSpaces(s[1..]));
        CollapseCommasSpaced(DropCommaSpaces(s[1..]));
        var r := ", " + tail;
        forall i | 0 <= i < |r| && r[i] == ','
          ensures i + 1 < |r| && r[i + 1] == ' ' && (i + 2 == |r| || (r[i + 2] != ',' && !IsSpace(r[i + 2])))
        {
          if i >= 2 { assert r[i] == tail[i - 2]; }
        }
      } else {
        var tail := CollapseCommas(s[1..]);
        CollapseCommasSpaced(s[1..]);
        var r := [s[0]] + tail;
        forall i | 0 <= i < |r| && r[i] == ','
          ensures i + 1 < |r| && r[i + 1] == ' ' && (i + 2 == |r| || (r[i + 2] != ',' && !IsSpace(r[i + 2])))
        {
          assert i >= 1;
          assert r[i] == tail[i - 1];
        }
      }
    }
  }

  /**
   * `formatAuthors`: the first " and " becomes ", ", every "Foreword" run is
   * set apart in lower case, the first "With chapters selected by " goes,
   * comma runs become ", ", white-space runs one blank, and the ends are
   * trimmed.
   */
  function FormatAuthors(authors: string): (r: string)
    ensures Trimmed(r) && SingleSpaced(r)
  {
    var t := ReplaceFirst(Forewords(ReplaceFirst(authors, " and ", ", ")), "With chapters selected by ", "");
    var c := CollapseSpaces(CollapseCommas(t));
    TrimKeepsSpacing(c);
    Trim(c)
  }

  /** A name as it should come out: not empty, trimmed, single-spaced, with no comma, 'F' or 'W'. */
  predicate PlainName(n: string) {
    n != [] && Trimmed(n) && SingleSpaced(n) && ',' !in n && 'F' !in n && 'W' !in n
  }

  /** Such text passes the rewrites after the first one unchanged. */
  lemma PlainRewrites(t: string)
    requires Trimmed(t) && SingleSpaced(t) && ',' !in t && 'F' !in t && 'W' !in t
    ensures Trim(CollapseSpaces(CollapseCommas(ReplaceFirst(Forewords(t), "With chapters selected by ", "")))) == t
  {
    NoForewords(t);
    SeparatorAbsent(t, "With chapters selected by ");
    CommaFreePrefix(t, "");
    assert t + "" == t;
    CollapseSingleSpaced(t);
  }

  /** A single plain name without " and " is already formatted. */
  lemma OneNameUnchanged(n: string)
    requires PlainName(n) && IndexOf(n, " and ") < 0
    ensures FormatAuthors(n) == n
  {
    PlainRewrites(n);
  }

  /** "A and B", with " and " first found between the two plain names, becomes "A, B". */
  lemma AndBecomesComma(a: string, b: string)
    requires PlainName(a) && PlainName(b)
    requires IndexOf(a + " and " + b, " and ") == |a|
    ensures FormatAuthors(a + " and " + b) == a + ", " + b
  {
    var s := a + " and " + b;
    var t := ReplaceFirst(s, " and ", ", ");
    assert t == a + ", " + b by {
      assert t[..|a|] == s[..|a|] == a;
      assert t[|a| + 2..] == s[|a| + 5..] == b;
      assert t == t[..|a|] + t[|a|..|a| + 2] + t[|a| + 2..];
    }
    assert ',' !in a + " " + b;
    CommaPair(a, b);
    PlainRewritesCommas(a, b);
  }

  /** "A, B" is single-spaced and trimmed when A and B are plain names. */
  lemma CommaPair(a: string, b: string)
    requires PlainName(a) && PlainName(b)
    ensures Trimmed(a + ", " + b) && SingleSpaced(a + ", " + b)
  {
    assert SingleSpaced(", ");
    SingleSpacedAppend(a, ", ");
    SingleSpacedAppend(a + ", ", b);
    assert (a + ", " + b)[0] == a[0];
    assert (a + ", " + b)[|a + ", " + b| - 1] == b[|b| - 1];
  }

  /** The rewrites after the first leave "A, B" as it is. */
  lemma PlainRewritesCommas(a: string, b: string)
    requires PlainName(a) && PlainName(b)
    requires Trimmed(a + ", " + b) && SingleSpaced(a + ", " + b)
    ensures Trim(CollapseSpaces(CollapseCommas(ReplaceFirst(Forewords(a + ", " + b), "With chapters selected by ", ""))))
         == a + ", " + b
  {
    var t := a + ", " + b;
    PlainKeepsText(a, b);
    CollapseSingleSpaced(t);
  }

  /** Two plain names around ", " pass the foreword, "With chapters" and comma rewrites unchanged. */
  lemma PlainKeepsText(a: string, b: string)
    requires PlainName(a) && PlainName(b)
    ensures CollapseCommas(ReplaceFirst(Forewords(a + ", " + b), "With chapters selected by ", "")) == a + ", " + b
  {
    var t := a + ", " + b;
    assert 'F' !in t && 'W' !in t;
    NoForewords(t);
    SeparatorAbsent(t, "With chapters selected by ");
    CommasKept(a, b);
  }


  /** Text without commas passes through unchanged, whatever follows it. */
  lemma {:induction false} CommaFreePrefix(a: string, rest: string)
    requires ',' !in a
    ensures CollapseCommas(a + rest) == a + CollapseCommas(rest)
    decreases |a|
  {
    if a != [] {
      assert (a + rest)[0] == a[0] && (a + rest)[1..] == a[1..] + rest;
      CommaFreePrefix(a[1..], rest);
    } else {
      assert a + rest == rest;
    }
  }

  /** The one comma of "A, B" is already followed by a single blank and a name. */
  lemma CommasKept(a: string, b: string)
    requires PlainName(a) && PlainName(b)
    ensures CollapseCommas(a + ", " + b) == a + ", " + b
  {
    CommaFreePrefix(a, ", " + b);
    CommaThenName(b);
    assert a + ", " + b == a + (", " + b);
  }

  /** ", " before a plain name is left as it is. */
  lemma CommaThenName(b: string)
    requires PlainName(b)
    ensures CollapseCommas(", " + b) == ", " + b
  {
    assert (", " + b)[1..] == " " + b;
    assert DropCommaSpaces(" " + b) == b by {
      assert (" " + b)[1..] == b;
    }
    CommaFreePrefix(b, "");
    assert b + "" == b;
  }

  // ---------------------------------------------------------------- file types

  /** The hidden input of a format's `div`: its `id` and its value. */
  datatype Hidden = Hidden(id: string, value: string)

  /** One format's `div`: its hidden input and the text after its checkbox, when present. */
  datatype TypeDiv = TypeDiv(hidden: Option<Hidden>, caption: Option<string>)

  /** `div.download-selection`: the `name` of its first checkbox, if any, and its format `div`s. */
  datatype Selection = Selection(checkbox: Option<string>, divs: seq<TypeDiv>)

  datatype DownloadType = DownloadType(id: string, name: string, fileType: string)

  datatype FileTypes = FileTypes(downloadName: string, downloadTypes: seq<DownloadType>)

  /** One format, or nothing when its `div` lacks the hidden input or the checkbox caption. */
  function TypeOf(d: TypeDiv): Option<DownloadType> {
    if d.hidden.Some? && d.caption.Some? then Some(DownloadType(d.hidden.value.id, d.hidden.value.value, Trim(d.caption.value)))
    else None
  }

  /**
   * `getFileTypesData`: undefined when the selection has no checkbox;
   * otherwise the checkbox's name and one format per `div`, in order. A
   * `div` missing an input throws.
   */
  function FileTypesData(sel: Selection): (r: Outcome<Option<FileTypes>>)
    ensures !r.Stalled?
    ensures sel.checkbox.None? ==> r == Done(None)
    ensures r.Failed? <==> sel.checkbox.Some? && exists i :: 0 <= i < |sel.divs| && TypeOf(sel.divs[i]).None?
    ensures r.Done? && sel.checkbox.Some? ==>
      r.value.Some? && r.value.value.downloadName == sel.checkbox.value
      && |r.value.value.downloadTypes| == |sel.divs|
      && forall i :: 0 <= i < |sel.divs| ==> Some(r.value.value.downloadTypes[i]) == TypeOf(sel.divs[i])
  {
    if sel.checkbox.None? then Done(None)
    else
      match Lists.AllSome(sel.divs, TypeOf)
      case Some(types) => Done(Some(FileTypes(sel.checkbox.value, types)))
      case None => Failed(TYPE_ERROR)
  }

  /** `getFileTypesData`: the loop pushing one format per `div`. */
  method GetFileTypesData(sel: Selection) returns (r: Outcome<Option<FileTypes>>)
    ensures r == FileTypesData(sel)
  {
    if sel.checkbox.None? {
      return Done(None);
    }
    var types := CollectTypes(sel.divs);
    if types.None? {
      return Failed(TYPE_ERROR);
    }
    r := Done(Some(FileTypes(sel.checkbox.value, types.value)));
  }

  /** The loop itself: one format per `div`, in order, stopping at the first `div` that lacks an input. */
  method CollectTypes(divs: seq<TypeDiv>) returns (r: Option<seq<DownloadType>>)
    ensures r == Lists.AllSome(divs, TypeOf)
  {
    var types: seq<DownloadType> := [];
    for i := 0 to |divs|
      invariant |types| == i
      invariant forall k :: 0 <= k < i ==> TypeOf(divs[k]) == Some(types[k])
    {
      var d := divs[i];
      if d.hidden.None? || d.caption.None? {
        assert TypeOf(divs[i]).None?;
        return None;
      }
      types := types + [DownloadType(d.hidden.value.id, d.hidden.value.value, Trim(d.caption.value))];
    }
    var all := Lists.AllSome(divs, TypeOf);
    assert all.value == types;
    r := Some(types);
  }

  // ---------------------------------------------------------------- parameters

  /** A value of the download parameters object. */
  datatype Value = Flag(flag: bool) | Str(text: string) | Ids(ids: seq<string>)

  /**
   * One format added: its id pushed onto the list under `listName` (which
   * throws when that entry is not a list), then its id set to its name.
   */
  function AddType(params: map<string, Value>, listName: string, t: DownloadType): (r: Outcome<map<string, Value>>)
    ensures !r.Stalled?
  {
    if listName in params && params[listName].Ids? then
      Done(params[listName := Ids(params[listName].ids + [t.id])][t.id := Str(t.name)])
    else Failed(PUSH_ERROR)
  }

  function AddTypes(params: map<string, Value>, listName: string, types: seq<DownloadType>): (r: Outcome<map<string, Value>>)
    ensures !r.Stalled?
    decreases |types|
  {
    if types == [] then Done(params)
    else
      match AddType(params, listName, types[0])
      case Done(p) => AddTypes(p, listName, types[1..])
      case Failed(e) => Failed(e)
  }

  /** The ids of the formats, in order. */
  function IdsOf(types: seq<DownloadType>): (ids: seq<string>)
    ensures |ids| == |types| && forall i :: 0 <= i < |types| ==> ids[i] == types[i].id
  {
    seq(|types|, i requires 0 <= i < |types| => types[i].id)
  }

  /** The ids of the formats, as a set. */
  function IdSet(types: seq<DownloadType>): (ks: set<string>)
    ensures forall i :: 0 <= i < |types| ==> types[i].id in ks
    ensures forall k :: k in ks ==> exists i :: 0 <= i < |types| && types[i].id == k
  {
    if types == [] then {} else {types[0].id} + IdSet(types[1..])
  }

  /**
   * The download parameters object: `dropbox` false, the external id, an
   * empty list under the checkbox's name, then every format added.
   */
  function Parameters(externalId: string, ft: FileTypes): Outcome<map<string, Value>> {
    var base := map["dropbox" := Flag(false), "productExternalId" := Str(externalId)][ft.downloadName := Ids([])];
    AddTypes(base, ft.downloadName, ft.downloadTypes)
  }

  /** Formats whose ids are distinct and collide with no other key of the object. */
  predicate SeparateIds(ft: FileTypes) {
    ft.downloadName != "dropbox" && ft.downloadName != "productExternalId"
    && (forall i :: 0 <= i < |ft.downloadTypes| ==>
          ft.downloadTypes[i].id !in {"dropbox", "productExternalId", ft.downloadName})
    && (forall i, j :: 0 <= i < j < |ft.downloadTypes| ==> ft.downloadTypes[i].id != ft.downloadTypes[j].id)
  }

  /**
   * Adding formats none of whose ids is the list's key succeeds, appends
   * their ids to the list in order, adds their ids as keys, and keeps every
   * other entry.
   */
  lemma {:induction false} AddTypesList(params: map<string, Value>, listName: string, types: seq<DownloadType>)
    requires listName in params && params[listName].Ids?
    requires forall i :: 0 <= i < |types| ==> types[i].id != listName
    ensures var r := AddTypes(params, listName, types);
      r.Done?
      && r.value.Keys == params.Keys + IdSet(types)
      && r.value[listName] == Ids(params[listName].ids + IdsOf(types))
      && (forall k :: k in params && k != listName && k !in IdSet(types) ==> r.value[k] == params[k])
    decreases |types|
  {
    if types == [] {
      assert params[listName].ids + IdsOf(types) == params[listName].ids;
    } else {
      var p := Added(params, listName, types[0]);
      var rest := types[1..];
      forall i | 0 <= i < |rest| ensures rest[i].id != listName {
        assert rest[i] == types[i + 1];
      }
      AddTypesList(p, listName, rest);
      AddTypesCons(params, listName, types);
    }
  }

  /** The object after one format is added. */
  function Added(params: map<string, Value>, listName: string, t: DownloadType): map<string, Value>
    requires listName in params && params[listName].Ids?
  {
    params[listName := Ids(params[listName].ids + [t.id])][t.id := Str(t.name)]
  }

  /** Adding formats is adding the first, then the rest; the ids split the same way. */
  lemma AddTypesCons(params: map<string, Value>, listName: string, types: seq<DownloadType>)
    requires listName in params && params[listName].Ids? && types != [] && types[0].id != listName
    ensures AddTypes(params, listName, types) == AddTypes(Added(params, listName, types[0]), listName, types[1..])
    ensures IdSet(types) == {types[0].id} + IdSet(types[1..])
    ensures params[listName].ids + IdsOf(types) == Added(params, listName, types[0])[listName].ids + IdsOf(types[1..])
  {
    assert IdsOf(types) == [types[0].id] + IdsOf(types[1..]);
    assert params[listName].ids + IdsOf(types) == params[listName].ids + [types[0].id] + IdsOf(types[1..]);
  }

  /** With distinct ids besides, each id ends up mapped to its own format's name. */
  lemma {:induction false} AddTypesNames(params: map<string, Value>, listName: string, types: seq<DownloadType>)
    requires listName in params && params[listName].Ids?
    requires forall i :: 0 <= i < |types| ==> types[i].id != listName
    requires forall i, j :: 0 <= i < j < |types| ==> types[i].id != types[j].id
    ensures var r := AddTypes(params, listName, types);
      r.Done? && forall i :: 0 <= i < |types| ==> types[i].id in r.value && r.value[types[i].id] == Str(types[i].name)
    decreases |types|
  {
    AddTypesList(params, listName, types);
    if types != [] {
      var t := types[0];
      var p := Added(params, listName, t);
      var rest := types[1..];
      forall i | 0 <= i < |rest| ensures rest[i].id != listName {
        assert rest[i] == types[i + 1];
      }
      forall i, j | 0 <= i < j < |rest| ensures rest[i].id != rest[j].id {
        assert rest[i] == types[i + 1] && rest[j] == types[j + 1];
      }
      AddTypesNames(p, listName, rest);
      AddTypesList(p, listName, rest);
      AddTypesCons(params, listName, types);
      assert t.id !in IdSet(rest) by {
        forall k | 0 <= k < |rest| ensures rest[k].id != t.id {
          assert rest[k] == types[k + 1];
        }
      }
      var r := AddTypes(p, listName, rest).value;
      assert t.id in r;
      forall i | 0 <= i < |types| ensures types[i].id in r && r[types[i].id] == Str(types[i].name) {
        if i > 0 {
          assert types[i] == rest[i - 1];
        }
      }
    }
  }

  /**
   * With separate ids, the parameters hold exactly `dropbox` false, the
   * external id, the ids in order under the checkbox's name, and each id
   * with its name.
   */
  lemma ParametersShape(externalId: string, ft: FileTypes)
    requires SeparateIds(ft)
    ensures var r := Parameters(externalId, ft);
      r.Done?
      && r.value.Keys == {"dropbox", "productExternalId", ft.downloadName} + IdSet(ft.downloadTypes)
      && r.value["dropbox"] == Flag(false)
      && r.value["productExternalId"] == Str(externalId)
      && r.value[ft.downloadName] == Ids(IdsOf(ft.downloadTypes))
      && forall i :: 0 <= i < |ft.downloadTypes| ==> r.value[ft.downloadTypes[i].id] == Str(ft.downloadTypes[i].name)
  {
    var base := map["dropbox" := Flag(false), "productExternalId" := Str(externalId)][ft.downloadName := Ids([])];
    assert base.Keys == {"dropbox", "productExternalId", ft.downloadName};
    AddTypesList(base, ft.downloadName, ft.downloadTypes);
    AddTypesNames(base, ft.downloadName, ft.downloadTypes);
    assert [] + IdsOf(ft.downloadTypes) == IdsOf(ft.downloadTypes);
    var ids := IdSet(ft.downloadTypes);
    forall k | k in ids ensures k != "dropbox" && k != "productExternalId" {
      var i :| 0 <= i < |ft.downloadTypes| && ft.downloadTypes[i].id == k;
    }
    var r := AddTypes(base, ft.downloadName, ft.downloadTypes).value;
    assert r["dropbox"] == base["dropbox"] == Flag(false);
    assert r["productExternalId"] == base["productExternalId"] == Str(externalId);
  }

  /** The loop of `getProducts` filling the download parameters object. */
  method BuildParameters(externalId: string, ft: FileTypes) returns (r: Outcome<map<string, Value>>)
    ensures r == Parameters(externalId, ft)
  {
    var params := map["dropbox" := Flag(false), "productExternalId" := Str(externalId)];
    params := params[ft.downloadName := Ids([])];
    var types := ft.downloadTypes;
    for i := 0 to |types|
      invariant Parameters(externalId, ft) == AddTypes(params, ft.downloadName, types[i..])
    {
      assert types[i..][0] == types[i] && types[i..][1..] == types[i + 1..];
      if !(ft.downloadName in params && params[ft.downloadName].Ids?) {
        return Failed(PUSH_ERROR);
      }
      params := params[ft.downloadName := Ids(params[ft.downloadName].ids + [types[i].id])];
      params := params[types[i].id := Str(types[i].name)];
    }
    assert types[|types|..] == [];
    r := Done(params);
  }

  /** `qs` spelling of a scalar form value. */
  function FormText(v: Value): string {
    match v
    case Flag(b) => if b then "true" else "false"
    case Str(t) => t
    case Ids(_) => ""
  }

  /** The parameters as a form body: scalars as fields, lists repeated once per element. */
  function ParamsOptions(params: map<string, Value>): Options {
    Plain.(form := map k | k in params && !params[k].Ids? :: FormText(params[k]),
           repeated := map k | k in params && params[k].Ids? :: params[k].ids)
  }

  /** The file extension: "zip" for several formats, else the single format's type; none throws. */
  function Extension(types: seq<DownloadType>): (r: Outcome<string>)
    ensures !r.Stalled?
    ensures r.Failed? <==> types == []
    ensures |types| > 1 ==> r == Done("zip")
    ensures |types| == 1 ==> r == Done(types[0].fileType)
  {
    if |types| > 1 then Done("zip")
    else if |types| == 1 then Done(types[0].fileType)
    else Failed(TYPE_ERROR)
  }

  // ---------------------------------------------------------------- downloads

  /**
   * `downloadBookFile`: the parameters posted and the answer streamed into
   * the file. Without a form address the request never starts, so the
   * freshly created file stays empty and the step never settles.
   */
  function BookFile(s: State, path: string, url: Option<string>, params: map<string, Value>): (r: Step<()>)
    ensures !r.out.Failed?
    ensures url.None? ==> r == Step(Stalled, WriteFile(s, path, 0))
    ensures url.Some? ==> r == StreamTo(s, POST, url.value, ParamsOptions(params), path)
  {
    if url.None? then Step(Stalled, WriteFile(s, path, 0))
    else StreamTo(s, POST, url.value, ParamsOptions(params), path)
  }

  /** A truthy code-samples address. */
  predicate HasCode(codeLink: Option<string>) {
    codeLink.Some? && codeLink.value != ""
  }

  /**
   * `downloadProduct`: the folder is ensured; when the book file is present
   * nothing is fetched, neither book nor code; otherwise the book file is
   * streamed first, and only once it is complete, and only when there is a
   * code link, the code samples go into "<name>-CODE.zip".
   */
  function DownloadProduct(s: State, st: Settings, bookName: string, ext: string, url: Option<string>,
                           params: map<string, Value>, codeLink: Option<string>): (r: Step<()>)
    ensures !r.out.Failed?
    ensures var path := st.pathName(bookName); var dir := st.booksDir + "/" + path;
      var s1 := EnsureDirectory(s, dir); var b := BookFile(s1, dir + "/" + path + "." + ext, url, params);
      (Files.ElementExists(s.disk, dir, path + "." + ext) ==> r == Step(Done(()), s1))
      && (!Files.ElementExists(s.disk, dir, path + "." + ext) ==>
            (b.out.Done? && HasCode(codeLink) ==> r == StreamTo(b.st, GET, codeLink.value, Plain, dir + "/" + path + "-CODE.zip"))
            && (!(b.out.Done? && HasCode(codeLink)) ==> r == b))
  {
    var path := st.pathName(bookName);
    var dir := st.booksDir + "/" + path;
    var name := path + "." + ext;
    var s1 := EnsureDirectory(s, dir);
    if Files.ElementExists(s1.disk, dir, name) then Step(Done(()), s1)
    else
      var b := BookFile(s1, dir + "/" + path + "." + ext, url, params);
      if b.out.Done? && HasCode(codeLink) then StreamTo(b.st, GET, codeLink.value, Plain, dir + "/" + path + "-CODE.zip")
      else b
  }

  /**
   * The book's request comes before the code samples' one, and the code
   * samples are requested only when the book's body was streamed, an error
   * page included.
   */
  lemma BookBeforeCode(s: State, st: Settings, bookName: string, ext: string, url: string,
                       params: map<string, Value>, codeLink: Option<string>)
    requires var dir := st.booksDir + "/" + st.pathName(bookName);
      !Files.ElementExists(s.disk, dir, st.pathName(bookName) + "." + ext)
    ensures var path := st.pathName(bookName); var dir := st.booksDir + "/" + path;
      var s1 := EnsureDirectory(s, dir); var r := DownloadProduct(s, st, bookName, ext, Some(url), params, codeLink);
      var book := [Request(POST, url, ParamsOptions(params)), Write(dir + "/" + path + "." + ext, StreamedSize(ReplyAt(s.replies, 0)))];
      (Streams(ReplyAt(s.replies, 0)) && HasCode(codeLink) ==>
         r.st.trace == s1.trace + book
                       + [Request(GET, codeLink.value, Plain), Write(dir + "/" + path + "-CODE.zip", StreamedSize(ReplyAt(s.replies, 1)))])
      && (!(Streams(ReplyAt(s.replies, 0)) && HasCode(codeLink)) ==> r.st.trace == s1.trace + book)
  {
    var path := st.pathName(bookName);
    var dir := st.booksDir + "/" + path;
    var s1 := EnsureDirectory(s, dir);
    var b := BookFile(s1, dir + "/" + path + "." + ext, Some(url), params);
    ReplyAtDrop(s.replies, 1, 0);
  }

  // ---------------------------------------------------------------- products

  /** A `tr.license-row` as the selectors read it. */
  datatype Row = Row(titleText: string, authorText: string, selection: Selection,
                     formAction: Option<string>, externalId: Option<string>, codeHref: Option<string>)

  /** The name of a row's book: "title - authors". */
  function RowName(row: Row): string {
    Trim(row.titleText) + " - " + FormatAuthors(row.authorText)
  }

  /** The form's address: the main page, a slash, and the form's `action`. */
  function DownloadUrl(mainPageUrl: string, row: Row): Option<string> {
    if row.formAction.Some? then Some(mainPageUrl + "/" + row.formAction.value) else None
  }

  /** Whether a row is downloaded at all: formats were found and the external id is truthy. */
  predicate Downloadable(ft: Option<FileTypes>, row: Row) {
    ft.Some? && row.externalId.Some? && row.externalId.value != ""
  }

  /**
   * The guarded part of a row: parameters, extension and download; what
   * throws in it is logged and the walk goes on, while a download that
   * never settles holds the walk.
   */
  function TryDownload(s: State, st: Settings, mainPageUrl: string, row: Row, ft: FileTypes): (r: Step<()>)
    ensures !r.out.Failed?
    ensures Parameters(row.externalId.value, ft).Failed? || Extension(ft.downloadTypes).Failed? ==> r == Step(Done(()), s)
    requires row.externalId.Some?
  {
    match Parameters(row.externalId.value, ft)
    case Failed(_) => Step(Done(()), s)
    case Done(params) =>
      match Extension(ft.downloadTypes)
      case Failed(_) => Step(Done(()), s)
      case Done(ext) =>
        var d := DownloadProduct(s, st, RowName(row), ext, DownloadUrl(mainPageUrl, row), params, row.codeHref);
        if d.out.Stalled? then d else Step(Done(()), d.st)
  }

  /**
   * One row of `getProducts`: a selection that throws rejects the walk; a
   * row without formats or external id is skipped with nothing changed.
   */
  function RowStep(s: State, st: Settings, mainPageUrl: string, row: Row): (r: Step<()>)
    ensures FileTypesData(row.selection).Failed? ==> r == Step(Failed(TYPE_ERROR), s)
    ensures FileTypesData(row.selection).Done? && !Downloadable(FileTypesData(row.selection).value, row) ==>
      r == Step(Done(()), s)
  {
    match FileTypesData(row.selection)
    case Failed(e) => Step(Failed(e), s)
    case Done(ft) =>
      if Downloadable(ft, row) then TryDownload(s, st, mainPageUrl, row, ft.value)
      else Step(Done(()), s)
  }

  /** The rows in order; the first that does not resolve ends the walk. */
  function RowsStep(s: State, st: Settings, mainPageUrl: string, rows: seq<Row>): Step<()>
    decreases |rows|
  {
    if rows == [] then Step(Done(()), s)
    else
      var r := RowStep(s, st, mainPageUrl, rows[0]);
      if r.out.Done? then RowsStep(r.st, st, mainPageUrl, rows[1..]) else r
  }

  /** The list body wrapped into a table document before it is parsed. */
  function Wrapped(body: string): string {
    "<html><body><table>" + body + "</table></body></html>"
  }

  /**
   * `getProducts`: the licence list is fetched (its failure rejects) and its
   * rows, read by `scrape` from the wrapped body, are walked.
   */
  function Products(s: State, st: Settings, mainPageUrl: string, booksListUrl: string,
                    scrape: string -> seq<Row>): (r: Step<()>)
    ensures ReplyAt(s.replies, 0).TransportError? ==> r.out == Failed(ReplyAt(s.replies, 0).reason)
    ensures ReplyAt(s.replies, 0).Answer? ==>
      r == RowsStep(GetPageBody(s, booksListUrl, 0, false).st, st, mainPageUrl, scrape(Wrapped(ReplyAt(s.replies, 0).response.body)))
  {
    var g := GetPageBody(s, booksListUrl, 0, false);
    match g.out
    case Done(resp) => RowsStep(g.st, st, mainPageUrl, scrape(Wrapped(resp.body)))
    case Failed(e) => Step(Failed(e), g.st)
    case Stalled => Step(Stalled, g.st)
  }

  function Run(s: State, st: Settings, acct: Account, booksListUrl: string,
               formData: string -> LoginData, scrape: string -> seq<Row>): Step<()> {
    GetBooks(s, st.cookiesDir, acct,
             s' => CheckIfUserIsLoggedIn(s', acct, NOT_LOGGED_IN_MARKER),
             s' => LogIn(s', acct, formData),
             (s', _) => Products(s', st, acct.mainPageUrl, booksListUrl, scrape))
  }

  // ---------------------------------------------------------------- loops

  /** One pass of `getProducts`' loop. */
  method ProcessRow(s: State, st: Settings, mainPageUrl: string, row: Row) returns (r: Step<()>)
    ensures r == RowStep(s, st, mainPageUrl, row)
  {
    var ft := GetFileTypesData(row.selection);
    if ft.Failed? {
      return Step(Failed(ft.reason), s);
    }
    if !Downloadable(ft.value, row) {
      return Step(Done(()), s);
    }
    var params := BuildParameters(row.externalId.value, ft.value.value);
    var ext := Extension(ft.value.value.downloadTypes);
    if params.Failed? || ext.Failed? {
      return Step(Done(()), s);
    }
    var d := DownloadProduct(s, st, RowName(row), ext.value, DownloadUrl(mainPageUrl, row), params.value, row.codeHref);
    r := if d.out.Stalled? then d else Step(Done(()), d.st);
  }

  /** The loop of `getProducts` over the licence rows. */
  method WalkRows(s: State, st: Settings, mainPageUrl: string, rows: seq<Row>) returns (r: Step<()>)
    ensures r == RowsStep(s, st, mainPageUrl, rows)
  {
    r := Step(Done(()), s);
    var i := 0;
    while i < |rows| && r.out.Done?
      invariant 0 <= i <= |rows|
      invariant r.out.Done? ==> RowsStep(s, st, mainPageUrl, rows) == RowsStep(r.st, st, mainPageUrl, rows[i..])
      invariant !r.out.Done? ==> RowsStep(s, st, mainPageUrl, rows) == r
    {
      var next := ProcessRow(r.st, st, mainPageUrl, rows[i]);
      assert RowsStep(r.st, st, mainPageUrl, rows[i..])
          == if next.out.Done? then RowsStep(next.st, st, mainPageUrl, rows[i + 1..]) else next by {
        assert rows[i..][0] == rows[i] && rows[i..][1..] == rows[i + 1..];
      }
      r := next;
      i := i + 1;
    }
    if r.out.Done? {
      assert rows[i..] == [];
      r := Step(Done(()), r.st);
    }
  }
}
