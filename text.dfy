/**
 * The JavaScript string operations the adapters use, with the exact
 * semantics the adapters rely on: `trim`, `indexOf`, `replace` with a
 * string pattern (first occurrence only), `split`/`join`, and the few
 * global regular-expression replacements shared by several adapters.
 */
module Text {
  import opened Wrappers
  import opened Lists

  // ---------------------------------------------------------------- characters

  /** JavaScript's `\s` class, which is also what `trim` removes. */
  predicate IsSpace(c: char) {
    c == ' ' || c == '\t' || c == '\n' || c == '\r' || c == '\U{000B}' || c == '\U{000C}'
    || c == '\U{00A0}' || c == '\U{1680}' || ('\U{2000}' <= c <= '\U{200A}')
    || c == '\U{2028}' || c == '\U{2029}' || c == '\U{202F}' || c == '\U{205F}'
    || c == '\U{3000}' || c == '\U{FEFF}'
  }

  predicate IsLowerLetter(c: char) { 'a' <= c <= 'z' }

  /** The class `[a-zA-Z0-9]`. */
  predicate IsAlnum(c: char) { 'a' <= c <= 'z' || 'A' <= c <= 'Z' || '0' <= c <= '9' }

  function LowerChar(c: char): char {
    if 'A' <= c <= 'Z' then (c as int + 32) as char else c
  }

  function UpperChar(c: char): char {
    if 'a' <= c <= 'z' then (c as int - 32) as char else c
  }

  /** `toLowerCase`, on the ASCII letters. */
  function Lower(s: string): (r: string)
    ensures |r| == |s|
    ensures forall i :: 0 <= i < |s| ==> r[i] == LowerChar(s[i])
  {
    seq(|s|, i requires 0 <= i < |s| => LowerChar(s[i]))
  }

  /** `toUpperCase`, on the ASCII letters. */
  function Upper(s: string): (r: string)
    ensures |r| == |s|
    ensures forall i :: 0 <= i < |s| ==> r[i] == UpperChar(s[i])
  {
    seq(|s|, i requires 0 <= i < |s| => UpperChar(s[i]))
  }

  // ---------------------------------------------------------------- trimming

  /** `trimStart`: drops the leading white space and nothing else. */
  function TrimStart(s: string): (r: string)
    ensures |r| <= |s| && r == s[|s| - |r|..]
    ensures r == [] || !IsSpace(r[0])
    ensures forall i :: 0 <= i < |s| - |r| ==> IsSpace(s[i])
  {
    if s != [] && IsSpace(s[0]) then TrimStart(s[1..]) else s
  }

  /** `trimEnd`: drops the trailing white space and nothing else. */
  function TrimEnd(s: string): (r: string)
    ensures |r| <= |s| && r == s[..|r|]
    ensures r == [] || !IsSpace(r[|r| - 1])
    ensures forall i :: |r| <= i < |s| ==> IsSpace(s[i])
  {
    if s != [] && IsSpace(s[|s| - 1]) then TrimEnd(s[..|s| - 1]) else s
  }

  /** White space after a text that ends in a non-space is exactly what `trimEnd` drops. */
  lemma {:induction false} TrimEndSpaces(a: string, ws: string)
    requires a != [] && !IsSpace(a[|a| - 1])
    requires forall i :: 0 <= i < |ws| ==> IsSpace(ws[i])
    ensures TrimEnd(a + ws) == a
    decreases |ws|
  {
    if ws == [] {
      assert a + ws == a;
    } else {
      assert (a + ws)[..|a + ws| - 1] == a + ws[..|ws| - 1];
      TrimEndSpaces(a, ws[..|ws| - 1]);
    }
  }

  /** `trim`. */
  function Trim(s: string): (r: string)
    ensures |r| <= |s|
    ensures r == [] || (!IsSpace(r[0]) && !IsSpace(r[|r| - 1]))
    ensures (s == [] || (!IsSpace(s[0]) && !IsSpace(s[|s| - 1]))) ==> r == s
  {
    TrimEnd(TrimStart(s))
  }

  // ---------------------------------------------------------------- searching

  predicate StartsWith(s: string, p: string) {
    |p| <= |s| && s[..|p|] == p
  }

  predicate EndsWith(s: string, p: string) {
    |p| <= |s| && s[|s| - |p|..] == p
  }

  predicate OccursAt(s: string, t: string, i: int) {
    0 <= i && i + |t| <= |s| && s[i..i + |t|] == t
  }

  /** `s.indexOf(t)`: the first position where `t` occurs, or -1. */
  function IndexOf(s: string, t: string): (r: int)
    ensures -1 <= r && (r >= 0 ==> r + |t| <= |s|)
    ensures r >= 0 ==> OccursAt(s, t, r) && forall j :: 0 <= j < r ==> !OccursAt(s, t, j)
    ensures r < 0 ==> forall j :: 0 <= j ==> !OccursAt(s, t, j)
  {
    if StartsWith(s, t) then 0
    else if s == [] then -1
    else
      var k := IndexOf(s[1..], t);
      OccursShift(s, t);
      if k < 0 then -1 else k + 1
  }

  lemma OccursShift(s: string, t: string)
    requires s != []
    ensures forall j :: 0 <= j ==> (OccursAt(s[1..], t, j) <==> OccursAt(s, t, j + 1))
    ensures forall j :: 1 <= j ==> (OccursAt(s, t, j) <==> OccursAt(s[1..], t, j - 1))
    ensures OccursAt(s, t, 0) <==> StartsWith(s, t)
  {
    if |t| <= |s| {
      assert s[0..|t|] == s[..|t|];
    }
    forall j | 0 <= j ensures OccursAt(s[1..], t, j) <==> OccursAt(s, t, j + 1) {
      if j + 1 + |t| <= |s| {
        assert s[1..][j..j + |t|] == s[j + 1..j + 1 + |t|];
      }
    }
  }

  predicate Contains(s: string, t: string) {
    IndexOf(s, t) >= 0
  }

  lemma ContainsIff(s: string, t: string)
    ensures Contains(s, t) <==> exists j :: OccursAt(s, t, j)
  {
  }

  /** `s.replace(t, rep)` with a string pattern: only the first occurrence is replaced. */
  function ReplaceFirst(s: string, t: string, rep: string): (r: string)
    ensures IndexOf(s, t) < 0 ==> r == s
    ensures IndexOf(s, t) >= 0 ==>
      var i := IndexOf(s, t);
      |r| == |s| - |t| + |rep| && r[..i] == s[..i] && r[i..i + |rep|] == rep && r[i + |rep|..] == s[i + |t|..]
  {
    var i := IndexOf(s, t);
    if i < 0 then s else s[..i] + rep + s[i + |t|..]
  }

  // ---------------------------------------------------------------- split / join

  /** `parts.join(sep)`. */
  function Join(parts: seq<string>, sep: string): string {
    if parts == [] then ""
    else if |parts| == 1 then parts[0]
    else parts[0] + sep + Join(parts[1..], sep)
  }

  /** `s.split(sep)` with a non-empty string separator. */
  function SplitOn(s: string, sep: string): (r: seq<string>)
    requires sep != []
    ensures |r| >= 1
    decreases |s|
  {
    var i := IndexOf(s, sep);
    if i < 0 then [s] else [s[..i]] + SplitOn(s[i + |sep|..], sep)
  }

  /**
   * Splitting undoes joining, when no part holds the separator's first
   * character (so no occurrence can start inside a part).
   */
  lemma {:induction false} SplitJoin(parts: seq<string>, sep: string)
    requires parts != [] && sep != []
    requires forall p :: p in parts ==> sep[0] !in p
    ensures SplitOn(Join(parts, sep), sep) == parts
  {
    if |parts| == 1 {
      SeparatorAbsent(parts[0], sep);
    } else {
      var rest := Join(parts[1..], sep);
      assert Join(parts, sep) == parts[0] + sep + rest;
      assert parts[0] in parts;
      forall p | p in parts[1..] ensures sep[0] !in p {
        assert p in parts;
      }
      SplitJoin(parts[1..], sep);
      SplitCons(parts[0], sep, rest);
      assert parts == [parts[0]] + parts[1..];
    }
  }

  /** Text without the separator's first character holds no occurrence of it. */
  lemma SeparatorAbsent(s: string, sep: string)
    requires sep != [] && sep[0] !in s
    ensures IndexOf(s, sep) < 0
  {
  }

  /** The separator placed after such text is first found right there. */
  lemma IndexOfSeparator(a: string, sep: string, b: string)
    requires sep != [] && sep[0] !in a
    ensures IndexOf(a + sep + b, sep) == |a|
  {
    var s := a + sep + b;
    assert s[|a|..|a| + |sep|] == sep;
    assert OccursAt(s, sep, |a|);

  }

  /** `for (p of parts) acc += p + sep`: every part followed by the separator. */
  function Terminated(parts: seq<string>, sep: string): (r: string)
    ensures parts == [] ==> r == []
  {
    if parts == [] then "" else parts[0] + sep + Terminated(parts[1..], sep)
  }

  /** One more part appended to a terminated list adds the part and a separator at the end. */
  lemma {:induction false} TerminatedSnoc(parts: seq<string>, p: string, sep: string)
    ensures Terminated(parts + [p], sep) == Terminated(parts, sep) + p + sep
  {
    if parts == [] {
      assert parts + [p] == [p];
      assert [p][1..] == [];
    } else {
      assert (parts + [p])[0] == parts[0];
      assert (parts + [p])[1..] == parts[1..] + [p];
      TerminatedSnoc(parts[1..], p, sep);
    }
  }

  /** `s.replace(/<p>$/, '')`: the suffix goes if `s` ends with it. */
  function DropSuffix(s: string, p: string): (r: string)
    ensures EndsWith(s, p) ==> r + p == s
    ensures !EndsWith(s, p) ==> r == s
  {
    if EndsWith(s, p) then s[..|s| - |p|] else s
  }

  /** Dropping the final separator of a terminated list leaves the joined list. */
  lemma TerminatedDropped(parts: seq<string>, sep: string)
    ensures DropSuffix(Terminated(parts, sep), sep) == Join(parts, sep)
  {
    if parts != [] {
      TerminatedJoin(parts, sep);
      var t := Join(parts, sep) + sep;
      assert t[|t| - |sep|..] == sep;
      assert t[..|t| - |sep|] == Join(parts, sep);
    }
  }

  /** A terminated list is the joined list with one separator more. */
  lemma {:induction false} TerminatedJoin(parts: seq<string>, sep: string)
    requires parts != []
    ensures Terminated(parts, sep) == Join(parts, sep) + sep
  {
    if |parts| > 1 {
      TerminatedJoin(parts[1..], sep);
    } else {
      assert Terminated(parts[1..], sep) == [];
    }
  }

  /** Splitting a terminated list gives the parts and one empty tail. */
  lemma {:induction false} SplitTerminated(parts: seq<string>, sep: string)
    requires sep != []
    requires forall p :: p in parts ==> sep[0] !in p
    ensures SplitOn(Terminated(parts, sep), sep) == parts + [""]
  {
    if parts == [] {
      SplitEmpty(sep);
    } else {
      var rest := Terminated(parts[1..], sep);
      forall p | p in parts[1..] ensures sep[0] !in p {
        assert p in parts;
      }
      calc {
        SplitOn(Terminated(parts, sep), sep);
        SplitOn(parts[0] + sep + rest, sep);
        { assert parts[0] in parts; SplitCons(parts[0], sep, rest); }
        [parts[0]] + SplitOn(rest, sep);
        { SplitTerminated(parts[1..], sep); }
        [parts[0]] + (parts[1..] + [""]);
        { assert parts == [parts[0]] + parts[1..]; }
        parts + [""];
      }
    }
  }

  lemma SplitEmpty(sep: string)
    requires sep != []
    ensures SplitOn("", sep) == [""]
  {
    assert IndexOf("", sep) < 0;
  }

  /** A leading part without the separator's first character splits off first. */
  lemma SplitCons(a: string, sep: string, rest: string)
    requires sep != [] && sep[0] !in a
    ensures SplitOn(a + sep + rest, sep) == [a] + SplitOn(rest, sep)
  {
    var s := a + sep + rest;
    IndexOfSeparator(a, sep, rest);
    assert s[..|a|] == a;
    assert s[|a| + |sep|..] == rest;
  }

  // ---------------------------------------------------------------- global replacements

  /** Skips a run of white space at the start of `s`. */
  function DropSpaces(s: string): (r: string)
    ensures |r| <= |s|
    ensures r == [] || !IsSpace(r[0])
  {
    TrimStart(s)
  }

  /** `s.replace(/\s+/g, ' ')`: every run of white space becomes one blank. */
  function CollapseSpaces(s: string): (r: string)
    ensures |r| <= |s|
    ensures r == [] <==> s == []
    ensures r != [] ==> (IsSpace(r[0]) <==> IsSpace(s[0]))
    ensures forall i :: 0 <= i < |r| && IsSpace(r[i]) ==> r[i] == ' '
    ensures forall i :: 0 <= i < |r| - 1 ==> !(IsSpace(r[i]) && IsSpace(r[i + 1]))
  {
    if s == [] then ""
    else if IsSpace(s[0]) then " " + CollapseSpaces(DropSpaces(s[1..]))
    else [s[0]] + CollapseSpaces(s[1..])
  }

  /** Every white-space character is a blank and no two are adjacent. */
  predicate SingleSpaced(s: string) {
    (forall i :: 0 <= i < |s| && IsSpace(s[i]) ==> s[i] == ' ')
    && (forall i :: 0 <= i < |s| - 1 ==> !(IsSpace(s[i]) && IsSpace(s[i + 1])))
  }

  /** Neither end is white space. */
  predicate Trimmed(s: string) {
    s == [] || (!IsSpace(s[0]) && !IsSpace(s[|s| - 1]))
  }

  /** A single-spaced text stays single-spaced when its ends are trimmed. */
  lemma TrimKeepsSpacing(c: string)
    requires SingleSpaced(c)
    ensures SingleSpaced(Trim(c))
  {
    var t := TrimStart(c);
    var e := TrimEnd(t);
    assert Trim(c) == e;
    var k := |c| - |t|;
    SingleSpacedSlice(c, k, |c|);
    assert t == c[k..];
    SingleSpacedSlice(t, 0, |e|);
    assert e == t[..|e|];
  }

  /** Any slice of a single-spaced text is single-spaced. */
  lemma SingleSpacedSlice(c: string, a: nat, b: nat)
    requires SingleSpaced(c) && a <= b <= |c|
    ensures SingleSpaced(c[a..b])
  {
    var d := c[a..b];
    assert forall i :: 0 <= i < |d| ==> d[i] == c[a + i];
  }

  /** Gluing two single-spaced texts keeps the spacing when no blank meets a blank at the seam. */
  lemma SingleSpacedAppend(a: string, b: string)
    requires SingleSpaced(a) && SingleSpaced(b)
    requires a == [] || b == [] || !IsSpace(a[|a| - 1]) || !IsSpace(b[0])
    ensures SingleSpaced(a + b)
  {
    var s := a + b;
    forall i | 0 <= i < |s| - 1 ensures !(IsSpace(s[i]) && IsSpace(s[i + 1])) {
      if i + 1 < |a| {
        assert s[i] == a[i] && s[i + 1] == a[i + 1];
      } else if i >= |a| {
        assert s[i] == b[i - |a|] && s[i + 1] == b[i - |a| + 1];
      }
    }
  }

  /** Collapsing white space changes nothing in a single-spaced text that starts with a non-blank. */
  lemma {:induction false} CollapseSingleSpaced(s: string)
    requires SingleSpaced(s) && (s == [] || !IsSpace(s[0]))
    ensures CollapseSpaces(s) == s
    decreases |s|
  {
    if s != [] {
      SingleSpacedSlice(s, 1, |s|);
      assert s[1..|s|] == s[1..];
      if |s| >= 2 && IsSpace(s[1]) {
        SingleSpacedSlice(s, 2, |s|);
        assert s[2..|s|] == s[2..];
        assert |s| > 2 ==> s[2..][0] == s[2];
        CollapseSingleSpaced(s[2..]);
        CollapseBlankStep(s);
      } else {
        CollapseSingleSpaced(s[1..]);
        CollapsePlainStep(s);
      }
    }
  }

  /** A non-blank followed by the rest, which collapses to itself, collapses to itself. */
  lemma CollapsePlainStep(s: string)
    requires s != [] && !IsSpace(s[0]) && CollapseSpaces(s[1..]) == s[1..]
    ensures CollapseSpaces(s) == s
  {
    assert s == [s[0]] + s[1..];
  }

  /** A non-blank, one blank and a rest that starts with a non-blank and collapses to itself. */
  lemma CollapseBlankStep(s: string)
    requires |s| >= 2 && !IsSpace(s[0]) && s[1] == ' '
    requires (|s| > 2 ==> !IsSpace(s[2])) && CollapseSpaces(s[2..]) == s[2..]
    ensures CollapseSpaces(s) == s
  {
    var t, u := s[1..], s[2..];
    assert t[1..] == u && t[0] == ' ';
    assert DropSpaces(u) == u;
    assert CollapseSpaces(t) == " " + u;
    assert s == [s[0]] + (" " + u);
  }


  /** The number of leading characters of `s` in the class `[a-z]`. */
  function LowerRun(s: string): (n: nat)
    ensures n <= |s|
    ensures forall i :: 0 <= i < n ==> IsLowerLetter(s[i])
    ensures n < |s| ==> !IsLowerLetter(s[n])
  {
    if s != [] && IsLowerLetter(s[0]) then 1 + LowerRun(s[1..]) else 0
  }

  /** The number of leading characters of `s` in the class `[a-zA-Z0-9]`. */
  function AlnumRun(s: string): (n: nat)
    ensures n <= |s|
    ensures forall i :: 0 <= i < n ==> IsAlnum(s[i])
    ensures n < |s| ==> !IsAlnum(s[n])
  {
    if s != [] && IsAlnum(s[0]) then 1 + AlnumRun(s[1..]) else 0
  }

  /** The number of trailing characters of `s` in the class `[a-zA-Z0-9]`. */
  function AlnumTail(s: string): (n: nat)
    ensures n <= |s|
    ensures forall i :: |s| - n <= i < |s| ==> IsAlnum(s[i])
    ensures n < |s| ==> !IsAlnum(s[|s| - n - 1])
  {
    if s != [] && IsAlnum(s[|s| - 1]) then 1 + AlnumTail(s[..|s| - 1]) else 0
  }

  /**
   * `s.replace(/([^:])[\/]+/g, "$1/")`: a run of slashes that follows a
   * character other than ':' becomes a single slash. The run right after
   * "http:" is left alone. A run at the very start keeps two slashes: its
   * first slash is the character the pattern matches before the run.
   */
  function CollapseSlashes(s: string): (r: string)
    ensures |r| <= |s|
    ensures r == [] <==> s == []
    ensures r != [] ==> r[0] == s[0]
    decreases |s|
  {
    if |s| >= 2 && s[0] != ':' && s[1] == '/' then
      [s[0], '/'] + CollapseSlashes(SkipSlashes(s[1..]))
    else if s == [] then ""
    else [s[0]] + CollapseSlashes(s[1..])
  }

  function SkipSlashes(s: string): (r: string)
    ensures |r| <= |s| && r == s[|s| - |r|..]
    ensures r == [] || r[0] != '/'
    ensures forall i :: 0 <= i < |s| - |r| ==> s[i] == '/'
  {
    if s != [] && s[0] == '/' then SkipSlashes(s[1..]) else s
  }

  /** Every "//" in `r` past the start follows a ':' or is part of a longer run of slashes. */
  predicate SlashPairsAfterColon(r: string) {
    forall i :: 0 <= i < |r| - 2 && r[i + 1] == '/' && r[i + 2] == '/' ==> r[i] == ':' || r[i] == '/'
  }

  /** Two slashes in a row survive only at the very start or right after a ':'. */
  lemma {:induction false} CollapseSlashesDoubles(s: string)
    ensures SlashPairsAfterColon(CollapseSlashes(s))
    decreases |s|
  {
    var r := CollapseSlashes(s);
    if |s| >= 2 && s[0] != ':' && s[1] == '/' {
      var t := SkipSlashes(s[1..]);
      CollapseSlashesDoubles(t);
      var rt := CollapseSlashes(t);
      assert r == [s[0], '/'] + rt;
      assert rt == [] || rt[0] != '/';
    } else if s != [] {
      CollapseSlashesDoubles(s[1..]);
    }
  }

  /** Collapsing slashes removes slashes and nothing else. */
  lemma {:induction false} CollapseSlashesKeepsText(s: string)
    ensures Without(CollapseSlashes(s), '/') == Without(s, '/')
    decreases |s|
  {
    if |s| >= 2 && s[0] != ':' && s[1] == '/' {
      var t := SkipSlashes(s[1..]);
      calc {
        Without(CollapseSlashes(s), '/');
        { assert CollapseSlashes(s) == [s[0], '/'] + CollapseSlashes(t); }
        Without([s[0], '/'] + CollapseSlashes(t), '/');
        { WithoutAppend([s[0], '/'], CollapseSlashes(t), '/'); WithoutSlashPair(s[0]); }
        Without([s[0]], '/') + Without(CollapseSlashes(t), '/');
        { CollapseSlashesKeepsText(t); WithoutSlashes(s[1..]); }
        Without([s[0]], '/') + Without(s[1..], '/');
        { WithoutHead(s); }
        Without(s, '/');
      }
    } else if s != [] {
      calc {
        Without(CollapseSlashes(s), '/');
        { assert CollapseSlashes(s) == [s[0]] + CollapseSlashes(s[1..]); }
        Without([s[0]] + CollapseSlashes(s[1..]), '/');
        { WithoutAppend([s[0]], CollapseSlashes(s[1..]), '/'); }
        Without([s[0]], '/') + Without(CollapseSlashes(s[1..]), '/');
        { CollapseSlashesKeepsText(s[1..]); }
        Without([s[0]], '/') + Without(s[1..], '/');
        { WithoutHead(s); }
        Without(s, '/');
      }
    }
  }

  lemma WithoutSlashPair(x: char)
    ensures Without([x, '/'], '/') == Without([x], '/')
  {
    assert [x, '/'][1..] == ['/'];
    assert ['/'][1..] == [] && [x][1..] == [];
  }

  lemma WithoutHead(s: string)
    requires s != []
    ensures Without(s, '/') == Without([s[0]], '/') + Without(s[1..], '/')
  {
    assert [s[0]][1..] == [];
  }

  /** `s` with every occurrence of `c` removed. */
  function Without(s: string, c: char): (r: string)
    ensures c !in r
  {
    if s == [] then "" else (if s[0] == c then "" else [s[0]]) + Without(s[1..], c)
  }

  lemma {:induction false} WithoutAppend(a: string, b: string, c: char)
    ensures Without(a + b, c) == Without(a, c) + Without(b, c)
  {
    if a != [] {
      assert (a + b)[1..] == a[1..] + b;
      WithoutAppend(a[1..], b, c);
    } else {
      assert a + b == b;
    }
  }

  lemma {:induction false} WithoutSlashes(s: string)
    ensures Without(SkipSlashes(s), '/') == Without(s, '/')
  {
    if s != [] && s[0] == '/' {
      WithoutSlashes(s[1..]);
    }
  }

  // ---------------------------------------------------------------- alternations

  /** Does `key` match at the start of `s` when ASCII case is ignored (the `i` flag)? */
  predicate MatchesCI(s: string, key: string) {
    |key| <= |s| && Lower(s[..|key|]) == Lower(key)
  }

  /** Is `a` a prefix of `b` when ASCII case is ignored? */
  predicate PrefixCI(a: string, b: string) {
    |a| <= |b| && Lower(a) == Lower(b[..|a|])
  }

  /** The first alternative of the pattern `k0|k1|...` that matches at the start of `s`. */
  function FirstMatchCI(s: string, keys: seq<string>, from: nat): (r: Option<nat>)
    requires from <= |keys|
    ensures r.Some? ==> from <= r.value < |keys| && MatchesCI(s, keys[r.value])
    ensures r.Some? ==> forall j :: from <= j < r.value ==> !MatchesCI(s, keys[j])
    ensures r.None? ==> forall j :: from <= j < |keys| ==> !MatchesCI(s, keys[j])
    decreases |keys| - from
  {
    if from == |keys| then None
    else if MatchesCI(s, keys[from]) then Some(from)
    else FirstMatchCI(s, keys, from + 1)
  }

  /** The value bound to `key`; a missing key reads `undefined`, which a template then spells out. */
  function Lookup(vals: map<string, string>, key: string): string {
    if key in vals then vals[key] else "undefined"
  }

  predicate NonEmptyKeys(keys: seq<string>) {
    forall k :: k in keys ==> k != []
  }

  /**
   * `t.replace(/k0|k1|.../gi, m => vals[m])`: one left-to-right pass; at each
   * position the first alternative that matches (ignoring case) is replaced by
   * the value stored under the matched text exactly as written, and the pass
   * resumes after it, so inserted values are never searched again.
   */
  function Substitute(t: string, keys: seq<string>, vals: map<string, string>): string
    requires NonEmptyKeys(keys)
    decreases |t|
  {
    if t == [] then ""
    else match FirstMatchCI(t, keys, 0)
      case Some(j) =>
        assert keys[j] in keys;
        Lookup(vals, t[..|keys[j]|]) + Substitute(t[|keys[j]|..], keys, vals)
      case None => [t[0]] + Substitute(t[1..], keys, vals)
  }

  /** A template: literal text and placeholder tokens. */
  datatype Piece = Lit(text: string) | Tok(key: string)

  /** The template as text, each token written exactly as it is keyed. */
  function Template(ps: seq<Piece>): string {
    if ps == [] then ""
    else (match ps[0] case Lit(l) => l case Tok(k) => k) + Template(ps[1..])
  }

  /** The text a filled-in template should read: each token replaced by its value. */
  function Filled(ps: seq<Piece>, vals: map<string, string>): string {
    if ps == [] then ""
    else (match ps[0] case Lit(l) => l case Tok(k) => Lookup(vals, k)) + Filled(ps[1..], vals)
  }

  /**
   * Placeholder alternatives in the adapters' style: each starts with '_',
   * and none is a case-insensitive prefix of another.
   */
  predicate TokenKeys(keys: seq<string>) {
    (forall k :: k in keys ==> k != [] && k[0] == '_')
    && (forall i, j :: 0 <= i < |keys| && 0 <= j < |keys| && i != j ==> !PrefixCI(keys[i], keys[j]))
  }

  /** A template whose literal text holds no '_' and whose tokens are all keys. */
  predicate WellFormed(ps: seq<Piece>, keys: seq<string>) {
    forall p :: p in ps ==> match p case Lit(l) => '_' !in l case Tok(k) => k in keys
  }

  /** Filling a well-formed template replaces every token by its value and keeps all literal text. */
  lemma {:induction false} SubstituteFillsTemplate(ps: seq<Piece>, keys: seq<string>, vals: map<string, string>)
    requires TokenKeys(keys)
    requires WellFormed(ps, keys)
    ensures Substitute(Template(ps), keys, vals) == Filled(ps, vals)
  {
    if ps != [] {
      assert ps[0] in ps;
      assert WellFormed(ps[1..], keys) by {
        forall p | p in ps[1..] ensures p in ps { }
      }
      SubstituteFillsTemplate(ps[1..], keys, vals);
      match ps[0]
      case Lit(l) => SubstituteLiteral(l, Template(ps[1..]), keys, vals);
      case Tok(k) => SubstituteToken(k, Template(ps[1..]), keys, vals);
    }
  }

  /** Literal text without '_' passes through unchanged. */
  lemma {:induction false} SubstituteLiteral(l: string, rest: string, keys: seq<string>, vals: map<string, string>)
    requires TokenKeys(keys)
    requires '_' !in l
    ensures Substitute(l + rest, keys, vals) == l + Substitute(rest, keys, vals)
  {
    if l != [] {
      SubstituteLiteralStep(l, rest, keys, vals);
      SubstituteLiteral(l[1..], rest, keys, vals);
      assert l == [l[0]] + l[1..];
      AppendAssoc([l[0]], l[1..], Substitute(rest, keys, vals));
    } else {
      assert l + rest == rest;
    }
  }

  /** The first character of such text is kept, and the rest still holds no '_'. */
  lemma SubstituteLiteralStep(l: string, rest: string, keys: seq<string>, vals: map<string, string>)
    requires TokenKeys(keys)
    requires '_' !in l && l != []
    ensures Substitute(l + rest, keys, vals) == [l[0]] + Substitute(l[1..] + rest, keys, vals)
    ensures '_' !in l[1..]
  {
    var t := l + rest;
    assert t[0] == l[0] && l[0] in l;
    NoTokenAt(t, keys);
    assert t[1..] == l[1..] + rest;
    assert forall c :: c in l[1..] ==> c in l;
  }

  /** No key matches where the text does not start with '_'. */
  lemma NoTokenAt(t: string, keys: seq<string>)
    requires TokenKeys(keys) && t != [] && t[0] != '_'
    ensures FirstMatchCI(t, keys, 0).None?
  {
    forall j | 0 <= j < |keys| ensures !MatchesCI(t, keys[j]) {
      assert keys[j] in keys;
    }
  }

  /** A token is replaced by its value, and the text after it is processed on its own. */
  lemma SubstituteToken(k: string, rest: string, keys: seq<string>, vals: map<string, string>)
    requires TokenKeys(keys)
    requires k in keys
    ensures Substitute(k + rest, keys, vals) == Lookup(vals, k) + Substitute(rest, keys, vals)
  {
    var t := k + rest;
    var i :| 0 <= i < |keys| && keys[i] == k;
    assert t[..|k|] == k;
    assert MatchesCI(t, keys[i]);
    var m := FirstMatchCI(t, keys, 0);
    var j := m.value;
    if j != i {
      assert false;
    }
    assert t[|k|..] == rest;
  }

  /** Two keys that differ, ignoring case, at a position both have: neither is a prefix of the other. */
  lemma DifferAt(a: string, b: string, i: nat)
    requires i < |a| && i < |b| && LowerChar(a[i]) != LowerChar(b[i])
    ensures !PrefixCI(a, b) && !PrefixCI(b, a)
  {
  }

  /** A template with no token text anywhere comes back unchanged. */
  lemma SubstituteNoTokens(t: string, keys: seq<string>, vals: map<string, string>)
    requires TokenKeys(keys)
    requires '_' !in t
    ensures Substitute(t, keys, vals) == t
  {
    SubstituteLiteral(t, "", keys, vals);
    assert t + "" == t;
  }

  /**
   * `s.replace(/k0|k1|.../g, '')`: one left-to-right pass removing every match;
   * at each position the first alternative that matches is taken.
   */
  function RemoveAll(s: string, pats: seq<string>): (r: string)
    requires NonEmptyKeys(pats)
    ensures |r| <= |s|
    decreases |s|
  {
    if s == [] then ""
    else if FirstPrefix(s, pats, 0).Some? then
      var j := FirstPrefix(s, pats, 0).value;
      assert pats[j] in pats;
      RemoveAll(s[|pats[j]|..], pats)
    else [s[0]] + RemoveAll(s[1..], pats)
  }

  function FirstPrefix(s: string, pats: seq<string>, from: nat): (r: Option<nat>)
    requires from <= |pats|
    ensures r.Some? ==> from <= r.value < |pats| && StartsWith(s, pats[r.value])
    ensures r.None? ==> forall j :: from <= j < |pats| ==> !StartsWith(s, pats[j])
    decreases |pats| - from
  {
    if from == |pats| then None
    else if StartsWith(s, pats[from]) then Some(from)
    else FirstPrefix(s, pats, from + 1)
  }

  /** The first alternative that matches is the least index that matches. */
  lemma {:induction false} FirstPrefixLeast(s: string, pats: seq<string>, from: nat, k: nat)
    requires from <= k < |pats| && StartsWith(s, pats[k])
    requires forall j :: from <= j < k ==> !StartsWith(s, pats[j])
    ensures FirstPrefix(s, pats, from) == Some(k)
    decreases k - from
  {
    if from < k {
      FirstPrefixLeast(s, pats, from + 1, k);
    }
  }

  /** A match of the `k`-th alternative at the start is removed when no earlier alternative matches there. */
  lemma RemoveAllLead(k: nat, rest: string, pats: seq<string>)
    requires NonEmptyKeys(pats) && k < |pats|
    requires forall j :: 0 <= j < k ==> !StartsWith(pats[k] + rest, pats[j])
    ensures RemoveAll(pats[k] + rest, pats) == RemoveAll(rest, pats)
  {
    var t := pats[k] + rest;
    assert t[..|pats[k]|] == pats[k];
    FirstPrefixLeast(t, pats, 0, k);
    assert pats[k] in pats;
    assert t[|pats[k]|..] == rest;
  }

  /** Removal keeps text that holds no first character of any pattern, and removes a pattern placed before it. */
  lemma {:induction false} RemoveAllPlain(l: string, rest: string, pats: seq<string>)
    requires NonEmptyKeys(pats)
    requires forall p :: p in pats ==> p[0] !in l
    ensures RemoveAll(l + rest, pats) == l + RemoveAll(rest, pats)
  {
    if l != [] {
      RemoveAllPlainStep(l, rest, pats);
      RemoveAllPlain(l[1..], rest, pats);
      assert l == [l[0]] + l[1..];
      Lists.AppendAssoc([l[0]], l[1..], RemoveAll(rest, pats));
    } else {
      assert l + rest == rest;
    }
  }

  /** The first character of such text is kept, and the rest still holds no first character of a pattern. */
  lemma RemoveAllPlainStep(l: string, rest: string, pats: seq<string>)
    requires NonEmptyKeys(pats) && l != []
    requires forall p :: p in pats ==> p[0] !in l
    ensures RemoveAll(l + rest, pats) == [l[0]] + RemoveAll(l[1..] + rest, pats)
    ensures forall p :: p in pats ==> p[0] !in l[1..]
  {
    var t := l + rest;
    assert t[0] == l[0] && l[0] in l;
    forall j | 0 <= j < |pats| ensures !StartsWith(t, pats[j]) {
      assert pats[j] in pats;
      assert |pats[j]| <= |t| ==> t[..|pats[j]|][0] == t[0];
    }
    assert FirstPrefix(t, pats, 0).None?;
    assert t[1..] == l[1..] + rest;
    forall p | p in pats ensures p[0] !in l[1..] {
      assert forall x :: x in l[1..] ==> x in l;
    }
  }

  // ---------------------------------------------------------------- URI encoding

  /** The characters `encodeURI` leaves as they are. */
  predicate UriKept(c: char) {
    IsAlnum(c) || c in ";,/?:@&=+$-_.!~*'()#"
  }

  /** Every character of `s` is one `encodeURI` keeps. */
  predicate AllKept(s: string) {
    forall i :: 0 <= i < |s| ==> UriKept(s[i])
  }

  /** Every character of `s` is a kept one or the escape sign. */
  predicate UriText(s: string) {
    forall i :: 0 <= i < |s| ==> UriKept(s[i]) || s[i] == '%'
  }

  /** The upper-case hexadecimal digit of `d`. */
  function HexDigit(d: nat): (r: char)
    requires d < 16
    ensures IsAlnum(r)
  {
    if d < 10 then DigitChar(d) else ('A' as int + d - 10) as char
  }

  /** The UTF-8 bytes of a code point. */
  function Utf8(c: char): (r: seq<nat>)
    ensures 1 <= |r| <= 4 && forall i :: 0 <= i < |r| ==> r[i] < 256
    ensures (c as int < 0x80) <==> |r| == 1
  {
    var cp := c as int;
    if cp < 0x80 then [cp]
    else if cp < 0x800 then [0xC0 + cp / 64, 0x80 + cp % 64]
    else if cp < 0x1_0000 then [0xE0 + cp / 4096, 0x80 + (cp / 64) % 64, 0x80 + cp % 64]
    else [0xF0 + cp / 262144, 0x80 + (cp / 4096) % 64, 0x80 + (cp / 64) % 64, 0x80 + cp % 64]
  }

  /** `%XY` for each byte, with upper-case digits. */
  function PercentBytes(bs: seq<nat>): (r: string)
    requires forall i :: 0 <= i < |bs| ==> bs[i] < 256
    ensures |r| == 3 * |bs|
    ensures forall i :: 0 <= i < |r| ==> r[i] == '%' || IsAlnum(r[i])
  {
    if bs == [] then "" else ['%', HexDigit(bs[0] / 16), HexDigit(bs[0] % 16)] + PercentBytes(bs[1..])
  }

  /** One character as `encodeURI` writes it. */
  function EncodeUriChar(c: char): (r: string)
    ensures UriKept(c) <==> r == [c]
    ensures !UriKept(c) ==> |r| >= 3
    ensures UriText(r)
  {
    if UriKept(c) then [c] else PercentBytes(Utf8(c))
  }

  /**
   * `encodeURI`: every character outside the kept set becomes the
   * percent-escapes of its UTF-8 bytes. (A `char` here is a scalar value,
   * so the lone surrogate that makes `encodeURI` throw cannot occur.)
   */
  function EncodeUri(s: string): (r: string)
    ensures |r| >= |s|
    ensures |r| == |s| <==> AllKept(s)
    ensures AllKept(s) ==> r == s
    ensures UriText(r)
  {
    if s == [] then ""
    else
      var h := EncodeUriChar(s[0]);
      var t := EncodeUri(s[1..]);
      UriTextAppend(h, t);
      AllKeptCons(s);
      assert AllKept(s) ==> h + t == [s[0]] + s[1..] == s;
      h + t
  }

  /** Joining two encoded texts gives an encoded text. */
  lemma UriTextAppend(a: string, b: string)
    requires UriText(a) && UriText(b)
    ensures UriText(a + b)
  {
    assert forall i :: |a| <= i < |a + b| ==> (a + b)[i] == b[i - |a|];
  }

  /** A text is all kept characters exactly when its first character and its rest are. */
  lemma AllKeptCons(s: string)
    requires s != []
    ensures AllKept(s) <==> UriKept(s[0]) && AllKept(s[1..])
  {
    assert forall i :: 1 <= i < |s| ==> s[i] == s[1..][i - 1];
  }

  /** The first character is encoded in front of the rest. */
  lemma EncodeUriCons(c: char, s: string)
    ensures EncodeUri([c] + s) == EncodeUriChar(c) + EncodeUri(s)
  {
    assert ([c] + s)[0] == c && ([c] + s)[1..] == s;
  }

  /** Encoding works character by character: it distributes over concatenation. */
  lemma {:induction false} EncodeUriAppend(a: string, b: string)
    ensures EncodeUri(a + b) == EncodeUri(a) + EncodeUri(b)
  {
    if a == [] {
      assert a + b == b;
    } else {
      var c, t := a[0], a[1..];
      assert a == [c] + t && a + b == [c] + (t + b);
      EncodeUriCons(c, t + b);
      EncodeUriCons(c, t);
      EncodeUriAppend(t, b);
      AppendAssoc(EncodeUriChar(c), EncodeUri(t), EncodeUri(b));
    }
  }

  // ---------------------------------------------------------------- numbers

  function DigitChar(d: nat): char
    requires d < 10
  {
    ('0' as int + d) as char
  }

  /** The decimal text of `n`, as template literals print a number. */
  function NatToString(n: nat): (r: string)
    ensures |r| >= 1
    ensures forall i :: 0 <= i < |r| ==> '0' <= r[i] <= '9'
    ensures (r[0] == '0') <==> n == 0
  {
    if n < 10 then [DigitChar(n)] else NatToString(n / 10) + [DigitChar(n % 10)]
  }

  /** A two-digit number prints as its tens digit then its units digit. */
  lemma NatToStringTwoDigits(n: nat)
    requires 10 <= n < 100
    ensures NatToString(n) == [DigitChar(n / 10), DigitChar(n % 10)]
  {
    assert NatToString(n / 10) == [DigitChar(n / 10)];
  }

  /** A non-empty run of decimal digits. */
  predicate IsDigits(t: string) {
    t != [] && forall i :: 0 <= i < |t| ==> '0' <= t[i] <= '9'
  }

  function DigitsValue(s: string): nat
    requires forall i :: 0 <= i < |s| ==> '0' <= s[i] <= '9'
  {
    if s == [] then 0 else 10 * DigitsValue(s[..|s| - 1]) + (s[|s| - 1] as int - '0' as int)
  }

  /** Reading the decimal text back gives the number: distinct numbers print differently. */
  lemma {:induction false} NatToStringRoundTrip(n: nat)
    ensures DigitsValue(NatToString(n)) == n
  {
    if n >= 10 {
      NatToStringRoundTrip(n / 10);
      var r := NatToString(n);
      assert r[..|r| - 1] == NatToString(n / 10);
    }
  }
}
