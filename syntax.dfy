/** The construct grammar of the rig dialect (lib/tzispa/rig/syntax.rb), one hand-written
    recogniser per pattern. `MatchX(s, i)` answers what the Ruby regexp answers when it is
    tried at position `i` of `s` (leftmost-first backtracking semantics): either no match
    starts there, or the end of the match and the capture groups the engine reads, gathered
    in one `Construct` value per pattern. Every pattern of the table is deterministic at a
    fixed start, so each recogniser is a direct scan. */
module Syntax {
  import opened Wrappers
  import opened Strings

  /** What a match hands to `instance`; the comments give the Ruby group numbers. */
  datatype Construct =
    | MetaC(id: string)                                      // meta: 1
    | VarC(format: Option<string>, id: string)               // var: 1, 2
    | UrlC(kind: string, app: Option<string>, layout: string, params: Option<string>)
                                                             // url: 1, 2 (`#app`), 3, 5
    | ApiC(kind: string, app: Option<string>, handler: string, verb: string,
           pred: Option<string>, sufix: Option<string>) // api: 1, 2 (`#app`), 3, 4, 5, 6
    | LoopC(id: string, body: string)                        // statements: 3, 4
    | IfeC(test: string, thenBody: string, elseBody: Option<string>)
                                                             // statements: 7, 8, 10
    | BlkC(id: string, params: Option<string>)               // templates: 3, 4
    | IBlkC(test: string, thenId: string, thenParams: Option<string>,
            elseId: string, elseParams: Option<string>)      // templates: 7, 8, 9, 10, 11
    | StaticC(id: string, params: Option<string>)            // templates: 14, 15

  datatype Match = Match(end: nat, c: Construct)

  predicate Fits(s: string, i: nat, r: Option<Match>) {
    r.Some? ==> i < r.value.end <= |s|
  }

  predicate Outside(c: char, stop: set<char>) {
    c !in stop
  }

  predicate IsDigit(c: char) {
    '0' <= c <= '9'
  }

  /** The end of the longest run of characters outside `stop` that starts at `i`. */
  function RunEnd(s: string, i: nat, stop: set<char>): (j: nat)
    requires i <= |s|
    ensures i <= j <= |s|
    ensures forall k {:trigger Outside(s[k], stop)} :: i <= k < j ==> Outside(s[k], stop)
    ensures j < |s| ==> !Outside(s[j], stop)
    decreases |s| - i
  {
    if i == |s| || !Outside(s[i], stop) then i else RunEnd(s, i + 1, stop)
  }

  /** The end of the longest run of `\w` characters that starts at `i`. */
  function WordEnd(s: string, i: nat): (j: nat)
    requires i <= |s|
    ensures i <= j <= |s|
    ensures forall k {:trigger IsWordChar(s[k])} :: i <= k < j ==> IsWordChar(s[k])
    ensures j < |s| ==> !IsWordChar(s[j])
    decreases |s| - i
  {
    if i == |s| || !IsWordChar(s[i]) then i else WordEnd(s, i + 1)
  }

  lemma {:induction false} WordEndAt(s: string, i: nat, j: nat)
    requires i <= j <= |s|
    requires forall k {:trigger IsWordChar(s[k])} :: i <= k < j ==> IsWordChar(s[k])
    requires j < |s| ==> !IsWordChar(s[j])
    ensures WordEnd(s, i) == j
    decreases j - i
  {
    if i < j {
      WordEndAt(s, i + 1, j);
    }
  }

  lemma Assoc(a: string, b: string, c: string)
    ensures a + (b + c) == (a + b) + c
  {
  }

  lemma SliceSplit(s: string, a: nat, b: nat, c: nat)
    requires a <= b <= c <= |s|
    ensures s[a..c] == s[a..b] + s[b..c]
  {
  }

  /** A literal at offset `off` of the span `s[i..e]` starts at `i + off` of `s`. */
  lemma LitInSpan(s: string, i: nat, e: nat, off: nat, lit: string)
    requires i <= e <= |s| && off + |lit| <= e - i && s[i..e][off..off + |lit|] == lit
    ensures StartsAt(s, i + off, lit)
  {
    forall k | 0 <= k < |lit| ensures s[i + off + k] == lit[k] {
      assert s[i..e][off..off + |lit|][k] == s[i..e][off + k] == s[i + off + k];
    }
  }

  /** The three parts of a span written as `pre + mid + post`. */
  lemma SpanParts(s: string, i: nat, e: nat, pre: string, mid: string, post: string)
    requires i <= e <= |s| && s[i..e] == pre + mid + post
    ensures StartsAt(s, i, pre) && StartsAt(s, i + |pre|, mid) && StartsAt(s, i + |pre| + |mid|, post)
    ensures i + |pre| + |mid| + |post| == e
  {
    var w := s[i..e];
    assert w[..|pre|] == pre;
    assert w[|pre|..|pre| + |mid|] == mid;
    assert w[|pre| + |mid|..] == post;
    LitInSpan(s, i, e, 0, pre);
    LitInSpan(s, i, e, |pre|, mid);
    LitInSpan(s, i, e, |pre| + |mid|, post);
  }

  // ---------------------------------------------------------------- pairs

  /** `\w+=[^,\]]+`: a word key, `=`, and a non-empty value without `,` or `]`. */
  predicate IsPair(p: string) {
    var k := WordEnd(p, 0);
    0 < k && k + 1 < |p| && p[k] == '=' && ',' !in p && ']' !in p
  }

  /** `\w+=[^,\]]+(,\w+=[^,\]]+)*`: one or more pairs separated by commas. */
  predicate IsPairList(c: string) {
    forall q :: q in Fields(c, ",") ==> IsPair(q)
  }

  lemma PairListHasNoBracket(c: string)
    requires IsPairList(c)
    ensures ']' !in c && |c| > 0
  {
    var parts := Fields(c, ",");
    JoinFields(c, ",");
    assert IsPair(parts[0]);
    if ']' in c {
      NoBracketInJoin(parts);
    }
  }

  lemma {:induction false} NoBracketInJoin(parts: seq<string>)
    requires forall q :: q in parts ==> ']' !in q
    ensures ']' !in Join(parts, ",")
  {
    if |parts| > 1 {
      NoBracketInJoin(parts[1..]);
      assert ']' !in parts[0];
    }
  }

  /** `(?:\[(PAIRS)\])?` at `j`: absent, present with its content and end, or broken (an
      opening bracket that does not start a valid list, which makes the whole construct fail). */
  datatype OptParams = Absent | Present(content: string, end: nat) | Broken

  function ParamsAt(s: string, j: nat): (r: OptParams)
    requires j <= |s|
    ensures r.Present? ==> (j + 2 <= r.end <= |s| && s[j] == '[' && s[r.end - 1] == ']'
                            && r.content == s[j + 1..r.end - 1] && IsPairList(r.content))
    ensures r.Absent? <==> (j == |s| || s[j] != '[')
  {
    if j == |s| || s[j] != '[' then Absent
    else
      var k := RunEnd(s, j + 1, {']'});
      if k < |s| && IsPairList(s[j + 1..k]) then Present(s[j + 1..k], k + 1) else Broken
  }

  lemma {:induction false} ParamsAtPresent(s: string, j: nat, c: string)
    requires j + |c| + 2 <= |s| && s[j] == '[' && s[j + 1..j + 1 + |c|] == c && s[j + 1 + |c|] == ']'
    requires IsPairList(c)
    ensures var r := ParamsAt(s, j); r.Present? && r.content == c && r.end == j + |c| + 2
  {
    PairListHasNoBracket(c);
    forall k | j + 1 <= k < j + 1 + |c| ensures Outside(s[k], {']'}) {
      assert s[k] == c[k - j - 1];
    }
    RunEndAt(s, j + 1, j + 1 + |c|, {']'});
  }

  lemma {:induction false} RunEndAt(s: string, i: nat, j: nat, stop: set<char>)
    requires i <= j < |s|
    requires forall k {:trigger Outside(s[k], stop)} :: i <= k < j ==> Outside(s[k], stop)
    requires !Outside(s[j], stop)
    ensures RunEnd(s, i, stop) == j
    decreases j - i
  {
    if i < j {
      RunEndAt(s, i + 1, j, stop);
    }
  }


  // ---------------------------------------------------------------- flags

  /** A flags match: its end and group 1, the bracketed list (what `@flags` keeps). */
  datatype FlagsMatch = FlagsMatch(end: nat, list: string)

  /** RIG_EMPTY[:flags]: `<flags:[PAIRS]/>`. */
  function MatchFlags(s: string, i: nat): (r: Option<FlagsMatch>)
    ensures r.Some? ==> i < r.value.end <= |s|
  {
    if !StartsAt(s, i, "<flags:") then None
    else
      match ParamsAt(s, i + 7)
      case Present(c, e) =>
        if StartsAt(s, e - 1, "]/>") then Some(FlagsMatch(e + 2, s[i + 7..e])) else None
      case _ => None
  }

  predicate FlagsForm(w: string, c: string) {
    w == "<flags:[" + c + "]/>" && IsPairList(c)
  }

  /** The list between the brackets of a flags group. */
  function Inner(list: string): string {
    if |list| >= 2 then list[1..|list| - 1] else ""
  }

  /** A flags match spans `<flags:[k=v(,k=v)*]/>` and keeps `[k=v(,k=v)*]` as its group 1. */
  lemma FlagsSound(s: string, i: nat)
    requires MatchFlags(s, i).Some?
    ensures var m := MatchFlags(s, i).value;
            FlagsForm(s[i..m.end], Inner(m.list)) && m.list == "[" + Inner(m.list) + "]"
  {
    var m := MatchFlags(s, i).value;
    var p := ParamsAt(s, i + 7);
    assert m.list == s[i + 7..p.end] && m.end == p.end + 2;
    FlagsSpan(s, i, p.end, p.content);
  }

  lemma FlagsSpan(s: string, i: nat, e: nat, c: string)
    requires i + 9 <= e && e + 2 <= |s| && StartsAt(s, i, "<flags:") && StartsAt(s, e - 1, "]/>")
    requires s[i + 7] == '[' && c == s[i + 8..e - 1] && IsPairList(c)
    ensures FlagsForm(s[i..e + 2], c) && s[i + 7..e] == "[" + c + "]" && Inner(s[i + 7..e]) == c
  {
    StartsAtSlice(s, i, "<flags:");
    StartsAtSlice(s, e - 1, "]/>");
    assert s[i..i + 7] == "<flags:";
    assert s[e - 1..e + 2] == "]/>";
    assert s[i..e + 2] == s[i..i + 7] + [s[i + 7]] + c + s[e - 1..e + 2];
    assert "<flags:[" + c + "]/>" == "<flags:" + ['['] + c + "]/>";
    assert s[e - 1] == ']';
    var b := s[i + 7..e];
    assert b == [s[i + 7]] + c + [s[e - 1]];
    assert b == "[" + c + "]";
    assert b[1..|b| - 1] == c;
  }

  lemma FlagsComplete(s: string, i: nat, e: nat, c: string)
    requires i <= e <= |s| && FlagsForm(s[i..e], c)
    ensures var r := MatchFlags(s, i); r.Some? && r.value.end == e && r.value.list == "[" + c + "]"
  {
    SpanParts(s, i, e, "<flags:[", c, "]/>");
    assert s[i..i + 7] == s[i..i + 8][..7];
    assert s[i + 7] == s[i..i + 8][7];
    assert s[i + 8 + |c|] == s[i + 8 + |c|..e][0];
    ParamsAtPresent(s, i + 7, c);
    Bracketed(s, i + 7, c);
  }

  /** `[c]` written at `j`. */
  lemma Bracketed(s: string, j: nat, c: string)
    requires j + |c| + 2 <= |s| && s[j] == '[' && s[j + 1..j + 1 + |c|] == c && s[j + 1 + |c|] == ']'
    ensures s[j..j + |c| + 2] == "[" + c + "]"
  {
    assert s[j..j + |c| + 2] == [s[j]] + s[j + 1..j + 1 + |c|] + [s[j + 1 + |c|]];
  }

  // ---------------------------------------------------------------- meta

  /** RIG_EXPRESSIONS[:meta]: `{%` + one or more non-`%` characters (shortest) + `%}`. */
  function MatchMeta(s: string, i: nat): (r: Option<Match>)
    ensures Fits(s, i, r)
    ensures r.Some? ==> r.value.c.MetaC?
  {
    if !StartsAt(s, i, "{%") then None
    else
      var j := RunEnd(s, i + 2, {'%'});
      if j > i + 2 && StartsAt(s, j, "%}") then Some(Match(j + 2, MetaC(s[i + 2..j]))) else None
  }

  predicate MetaForm(w: string, id: string) {
    w == "{%" + id + "%}" && |id| > 0 && '%' !in id
  }

  lemma MetaSound(s: string, i: nat)
    requires MatchMeta(s, i).Some?
    ensures var m := MatchMeta(s, i).value; m.c.MetaC? && MetaForm(s[i..m.end], m.c.id)
  {
    var m := MatchMeta(s, i).value;
    var j := m.end - 2;
    SliceSplit(s, i, i + 2, j);
    SliceSplit(s, i, j, j + 2);
  }

  /** A span of the meta form is exactly what the recogniser returns. */
  lemma MetaComplete(s: string, i: nat, e: nat, id: string)
    requires i <= e <= |s| && MetaForm(s[i..e], id)
    ensures var r := MatchMeta(s, i); r.Some? && r.value.end == e && r.value.c == MetaC(id)
  {
    SpanParts(s, i, e, "{%", id, "%}");
    var j := i + 2 + |id|;
    forall k | i + 2 <= k < j ensures Outside(s[k], {'%'}) {
      assert s[k] == id[k - i - 2];
    }
    assert s[j] == s[j..j + 2][0];
    RunEndAt(s, i + 2, j, {'%'});
  }

  // ---------------------------------------------------------------- var

  /** `\[%[A-Z]?[0-9]*[a-z]\]` at `j`: the end of the format, when there is one. */
  function FormatEnd(s: string, j: nat): (r: Option<nat>)
    requires j <= |s|
    ensures r.Some? ==> j + 4 <= r.value <= |s|
  {
    if !StartsAt(s, j, "[%") then None
    else
      var u := if j + 2 < |s| && 'A' <= s[j + 2] <= 'Z' then j + 3 else j + 2;
      var d := DigitEnd(s, u);
      if d + 1 < |s| && 'a' <= s[d] <= 'z' && s[d + 1] == ']' then Some(d + 2) else None
  }

  function DigitEnd(s: string, i: nat): (j: nat)
    requires i <= |s|
    ensures i <= j <= |s|
    ensures forall k {:trigger IsDigit(s[k])} :: i <= k < j ==> IsDigit(s[k])
    ensures j < |s| ==> !IsDigit(s[j])
    decreases |s| - i
  {
    if i == |s| || !IsDigit(s[i]) then i else DigitEnd(s, i + 1)
  }

  lemma {:induction false} DigitEndAt(s: string, i: nat, j: nat)
    requires i <= j < |s|
    requires forall k {:trigger IsDigit(s[k])} :: i <= k < j ==> IsDigit(s[k])
    requires !IsDigit(s[j])
    ensures DigitEnd(s, i) == j
    decreases j - i
  {
    if i < j {
      DigitEndAt(s, i + 1, j);
    }
  }

  /** A printf-style format: `[%`, an optional capital, digits, a lower-case letter, `]`. */
  predicate IsFormat(f: string) {
    |f| >= 4 && f[..2] == "[%" && f[|f| - 1] == ']' && 'a' <= f[|f| - 2] <= 'z'
    && (var mid := f[2..|f| - 2];
        forall k :: 0 <= k < |mid| ==> IsDigit(mid[k]) || (k == 0 && 'A' <= mid[k] <= 'Z'))
  }

  /** RIG_EXPRESSIONS[:var]: `<var`, an optional format (group 1), `:`, a word id (group 2), `/>`. */
  function MatchVar(s: string, i: nat): (r: Option<Match>)
    ensures Fits(s, i, r)
    ensures r.Some? ==> r.value.c.VarC?
  {
    if !StartsAt(s, i, "<var") then None else VarAt(s, i, FormatEnd(s, i + 4))
  }

  /** The rest of the var pattern once the format scan at `i + 4` has answered `f`. */
  function VarAt(s: string, i: nat, f: Option<nat>): (r: Option<Match>)
    requires i + 4 <= |s| && (f.Some? ==> i + 4 <= f.value <= |s|)
    ensures Fits(s, i, r)
    ensures r.Some? ==> r.value.c.VarC?
  {
    var c := if f.Some? then f.value else i + 4;
    if c < |s| && s[c] == ':' then
      var e := WordEnd(s, c + 1);
      if e > c + 1 && StartsAt(s, e, "/>") then
        Some(Match(e + 2, VarC(if f.Some? then Some(s[i + 4..c]) else None, s[c + 1..e])))
      else None
    else None
  }

  predicate VarForm(w: string, format: Option<string>, id: string) {
    w == "<var" + format.GetOr("") + ":" + id + "/>" && IsWord(id)
    && (format.Some? ==> IsFormat(format.value))
  }

  lemma FormatSound(s: string, j: nat)
    requires j <= |s| && FormatEnd(s, j).Some?
    ensures IsFormat(s[j..FormatEnd(s, j).value])
  {
    var c := FormatEnd(s, j).value;
    var fs := s[j..c];
    var u := if j + 2 < |s| && 'A' <= s[j + 2] <= 'Z' then j + 3 else j + 2;
    var d := DigitEnd(s, u);
    assert c == d + 2;
    assert fs[..2] == s[j..j + 2];
    var mid := fs[2..|fs| - 2];
    assert mid == s[j + 2..d];
    forall k | 0 <= k < |mid| ensures IsDigit(mid[k]) || (k == 0 && 'A' <= mid[k] <= 'Z') {
      assert mid[k] == s[j + 2 + k];
      if j + 2 + k >= u {
        assert IsDigit(s[j + 2 + k]);
      }
    }
  }

  /** A format written at `j` is recognised in full. */
  lemma FormatComplete(s: string, j: nat, f: string)
    requires StartsAt(s, j, f) && IsFormat(f)
    ensures FormatEnd(s, j) == Some(j + |f|)
  {
    var mid := f[2..|f| - 2];
    var d := j + 2 + |mid|;
    assert s[j..j + 2] == f[..2];
    forall k | j + 2 <= k < d ensures s[k] == mid[k - j - 2] {
      assert s[k] == f[k - j];
    }
    assert s[d] == f[|f| - 2] && s[d + 1] == f[|f| - 1];
    var u := if j + 2 < |s| && 'A' <= s[j + 2] <= 'Z' then j + 3 else j + 2;
    if u == j + 3 {
      assert |mid| > 0;
    }
    DigitEndAt(s, u, d);
  }

  lemma VarSound(s: string, i: nat)
    requires MatchVar(s, i).Some?
    ensures var m := MatchVar(s, i).value; m.c.VarC? && VarForm(s[i..m.end], m.c.format, m.c.id)
  {
    var f := FormatEnd(s, i + 4);
    var c := if f.Some? then f.value else i + 4;
    var e := WordEnd(s, c + 1);
    var g1 := if f.Some? then Some(s[i + 4..c]) else None;
    var m := MatchVar(s, i).value;
    assert m.end == e + 2 && m.c.format == g1 && m.c.id == s[c + 1..e];
    if f.Some? {
      FormatSound(s, i + 4);
    }
    var id := s[c + 1..e];
    assert IsWord(id);
    VarSpan(s, i, c, e, g1.GetOr(""), id);
  }

  lemma VarSpan(s: string, i: nat, c: nat, e: nat, fmt: string, id: string)
    requires i + 4 <= c < e && e + 2 <= |s|
    requires StartsAt(s, i, "<var") && StartsAt(s, e, "/>") && s[c] == ':'
    requires fmt == s[i + 4..c] && id == s[c + 1..e]
    ensures s[i..e + 2] == "<var" + fmt + ":" + id + "/>"
  {
    SliceSplit(s, i, i + 4, c);
    SliceSplit(s, i, c, c + 1);
    SliceSplit(s, i, c + 1, e);
    SliceSplit(s, i, e, e + 2);
  }

  /** A span of the var form, with or without a format, is exactly what the recogniser returns. */
  lemma VarComplete(s: string, i: nat, e: nat, format: Option<string>, id: string)
    requires i <= e <= |s| && VarForm(s[i..e], format, id)
    ensures var r := MatchVar(s, i); r.Some? && r.value.end == e && r.value.c == VarC(format, id)
  {
    var c := i + 4 + |format.GetOr("")|;
    VarFormatAt(s, i, e, format, id);
    VarIdAt(s, c, id);
    VarMatches(s, i, FormatEnd(s, i + 4), c, format, id);
  }

  /** The opening `<var` and the format of a var span, as the recogniser sees them. */
  lemma VarFormatAt(s: string, i: nat, e: nat, format: Option<string>, id: string)
    requires i <= e <= |s| && VarForm(s[i..e], format, id)
    ensures var c := i + 4 + |format.GetOr("")|;
            StartsAt(s, i, "<var") && c < |s| && StartsAt(s, c, ":" + id + "/>")
            && FormatEnd(s, i + 4) == (if format.Some? then Some(c) else None)
            && (format.Some? ==> s[i + 4..c] == format.value)
  {
    var fs := format.GetOr("");
    var c := i + 4 + |fs|;
    SpanParts(s, i, e, "<var", fs, ":" + id + "/>");
    StartsAtSlice(s, i + 4, fs);
    if format.Some? {
      FormatComplete(s, i + 4, fs);
    } else {
      assert s[i + 4] == (":" + id + "/>")[0] != "[%"[0];
    }
  }

  /** The `:id/>` tail of a var span, as the recogniser sees it. */
  lemma VarIdAt(s: string, c: nat, id: string)
    requires StartsAt(s, c, ":" + id + "/>") && IsWord(id)
    ensures c + 1 + |id| < |s| && s[c] == ':' && WordEnd(s, c + 1) == c + 1 + |id|
    ensures s[c + 1..c + 1 + |id|] == id && StartsAt(s, c + 1 + |id|, "/>")
  {
    var e := c + 3 + |id|;
    StartsAtSlice(s, c, ":" + id + "/>");
    SpanParts(s, c, e, ":", id, "/>");
    StartsAtSlice(s, c + 1, id);
    assert s[c] == ":"[0];
    WordPrefix(s, c + 1, id, '/');
  }

  /** The recogniser's view of a var tag whose parts were found at their positions. */
  lemma VarMatches(s: string, i: nat, f: Option<nat>, c: nat, format: Option<string>, id: string)
    requires i + 4 <= c < |s| && s[c] == ':'
    requires format.Some? == f.Some?
    requires f.Some? ==> f.value == c && s[i + 4..c] == format.value
    requires f.None? ==> c == i + 4
    requires WordEnd(s, c + 1) == c + 1 + |id| && |id| > 0 && s[c + 1..c + 1 + |id|] == id
    requires StartsAt(s, c + 1 + |id|, "/>")
    ensures var r := VarAt(s, i, f);
            r.Some? && r.value.end == c + 3 + |id| && r.value.c.VarC? && r.value.c.format == format && r.value.c.id == id
  {
  }

  // ---------------------------------------------------------------- url and api

  /** `(#\w+)?` at `j`: Some(end) (equal to `j` when absent), None when a `#` is not followed by a word. */
  function AppEnd(s: string, j: nat): (r: Option<nat>)
    requires j <= |s|
    ensures r.Some? ==> j <= r.value <= |s|
  {
    if j < |s| && s[j] == '#' then
      var w := WordEnd(s, j + 1);
      if w > j + 1 then Some(w) else None
    else Some(j)
  }

  /** `#\w+`, an application name as it is captured (with its `#`). */
  predicate IsApp(a: string) {
    |a| >= 2 && a[0] == '#' && IsWord(a[1..])
  }

  /** What AppEnd skips, when it skips anything, is an application name. */
  lemma AppSound(s: string, j: nat)
    requires j <= |s| && AppEnd(s, j).Some? && AppEnd(s, j).value > j
    ensures IsApp(s[j..AppEnd(s, j).value])
  {
    var w := AppEnd(s, j).value;
    assert s[j..w][1..] == s[j + 1..w];
  }

  /** No character of `t` is in `stop`. */
  predicate Avoids(t: string, stop: set<char>) {
    forall k {:trigger Outside(t[k], stop)} :: 0 <= k < |t| ==> Outside(t[k], stop)
  }

  lemma AvoidsSlice(s: string, a: nat, b: nat, stop: set<char>)
    requires a <= b <= |s| && forall k {:trigger Outside(s[k], stop)} :: a <= k < b ==> Outside(s[k], stop)
    ensures Avoids(s[a..b], stop)
  {
    forall k | 0 <= k < b - a ensures Outside(s[a..b][k], stop) {
      assert s[a..b][k] == s[a + k];
    }
  }

  /** A run that avoids `stop` before a character that is not in `stop` (or a second run
      that avoids `stop`) avoids `stop` as a whole. */
  lemma AvoidsJoin(s: string, a: nat, l: nat, b: nat, stop: set<char>)
    requires a <= l <= b <= |s|
    requires Avoids(s[a..l], stop) && (l < b ==> Outside(s[l], stop) && Avoids(s[l + 1..b], stop))
    ensures Avoids(s[a..b], stop)
  {
    forall k | a <= k < b ensures Outside(s[k], stop) {
      if k < l {
        assert s[k] == s[a..l][k - a];
      } else if k > l {
        assert s[k] == s[l + 1..b][k - l - 1];
      }
    }
    AvoidsSlice(s, a, b, stop);
  }

  /** The run RunEnd finds, which avoids `stop`, also avoids any subset `narrow` of `stop`. */
  lemma RunAvoids(s: string, a: nat, stop: set<char>, narrow: set<char>)
    requires a <= |s| && narrow <= stop
    ensures Avoids(s[a..RunEnd(s, a, stop)], narrow)
  {
    var l := RunEnd(s, a, stop);
    forall k | a <= k < l ensures Outside(s[k], narrow) {
      assert Outside(s[k], stop);
    }
    AvoidsSlice(s, a, l, narrow);
  }

  /** `[^\[@/]+(?:@[^\[/]+)?` at `j`, the layout of a url: its end, None when there is none. */
  function LayoutEnd(s: string, j: nat): (r: Option<nat>)
    requires j <= |s|
    ensures r.Some? ==> j < r.value <= |s|
  {
    var l := RunEnd(s, j, {'[', '@', '/'});
    if l == j then None
    else if l < |s| && s[l] == '@' then
      var l2 := RunEnd(s, l + 1, {'[', '/'});
      if l2 == l + 1 then None else Some(l2)
    else Some(l)
  }

  /** A layout holds no `[` and no `/`. */
  lemma LayoutSound(s: string, j: nat)
    requires j <= |s| && LayoutEnd(s, j).Some?
    ensures Avoids(s[j..LayoutEnd(s, j).value], {'[', '/'})
  {
    var l := RunEnd(s, j, {'[', '@', '/'});
    RunAvoids(s, j, {'[', '@', '/'}, {'[', '/'});
    if l < |s| && s[l] == '@' {
      RunAvoids(s, l + 1, {'[', '/'}, {'[', '/'});
      AvoidsJoin(s, j, l, LayoutEnd(s, j).value, {'[', '/'});
    }
  }

  /** The application and the layout a url match reads, when they are there. */
  lemma AppAndLayout(s: string, a: nat, c: nat)
    requires a <= |s| && AppEnd(s, a) == Some(c)
    ensures c > a ==> IsApp(s[a..c])
    ensures c < |s| && LayoutEnd(s, c + 1).Some? ==> Avoids(s[c + 1..LayoutEnd(s, c + 1).value], {'[', '/'})
  {
    if c > a {
      AppSound(s, a);
    }
    if c < |s| && LayoutEnd(s, c + 1).Some? {
      LayoutSound(s, c + 1);
    }
  }

  /** RIG_URL_BUILDER[:url]: `<(url|purl)(#\w+)?:layout(\[(PAIRS)\])?/>`, keeping the
      groups 1 kind, 2 `#app`, 3 layout and 5 params. A match names its kind, a `#word`
      application when there is one, a non-empty layout free of `[` and `/`, and a valid pair
      list when there are parameters. */
  function MatchUrl(s: string, i: nat): (r: Option<Match>)
    ensures Fits(s, i, r)
    ensures r.Some? ==> var c := r.value.c;
            c.UrlC? && (c.kind == "url" || c.kind == "purl")
            && (c.app.Some? ==> IsApp(c.app.value))
            && |c.layout| > 0 && Avoids(c.layout, {'[', '/'})
            && (c.params.Some? ==> IsPairList(c.params.value))
  {
    var kind := if StartsAt(s, i, "<url") then "url" else if StartsAt(s, i, "<purl") then "purl" else "";
    if kind == "" then None
    else
      var a := i + 1 + |kind|;
      match AppEnd(s, a)
      case None => None
      case Some(c) =>
        if !(c < |s| && s[c] == ':') then None
        else
          match LayoutEnd(s, c + 1)
          case None => None
          case Some(l) =>
            var app := if c > a then Some(s[a..c]) else None;
            AppAndLayout(s, a, c);
            UrlTail(s, i, kind, app, s[c + 1..l], l)
  }

  /** The optional parameter list after the layout, which ends at `l`, and the closing `/>`. */
  function UrlTail(s: string, i: nat, kind: string, app: Option<string>, layout: string, l: nat): (r: Option<Match>)
    requires i < l <= |s|
    ensures Fits(s, i, r)
    ensures r.Some? ==> r.value.c.UrlC? && r.value.c == UrlC(kind, app, layout, r.value.c.params)
    ensures r.Some? && r.value.c.params.Some? ==> IsPairList(r.value.c.params.value)
  {
    match ParamsAt(s, l)
    case Broken => None
    case Absent => if StartsAt(s, l, "/>") then Some(Match(l + 2, UrlC(kind, app, layout, None))) else None
    case Present(p, pe) => if StartsAt(s, pe, "/>") then Some(Match(pe + 2, UrlC(kind, app, layout, Some(p)))) else None
  }

  /** `[^:@]+(?:@[^:]+)?` at `j`, the handler of an api call: its end, None when there is none. */
  function HandlerEnd(s: string, j: nat): (r: Option<nat>)
    requires j <= |s|
    ensures r.Some? ==> j < r.value <= |s|
  {
    var h := RunEnd(s, j, {':', '@'});
    if h == j then None
    else if h < |s| && s[h] == '@' then
      var h2 := RunEnd(s, h + 1, {':'});
      if h2 == h + 1 then None else Some(h2)
    else Some(h)
  }

  /** A handler holds no `:`. */
  lemma HandlerSound(s: string, j: nat)
    requires j <= |s| && HandlerEnd(s, j).Some?
    ensures Avoids(s[j..HandlerEnd(s, j).value], {':'})
  {
    var h := RunEnd(s, j, {':', '@'});
    RunAvoids(s, j, {':', '@'}, {':'});
    if h < |s| && s[h] == '@' {
      RunAvoids(s, h + 1, {':'}, {':'});
      AvoidsJoin(s, j, h, HandlerEnd(s, j).value, {':'});
    }
  }

  /** The application and the handler an api match reads, when they are there. */
  lemma AppAndHandler(s: string, a: nat, c: nat)
    requires a <= |s| && AppEnd(s, a) == Some(c)
    ensures c > a ==> IsApp(s[a..c])
    ensures c < |s| && HandlerEnd(s, c + 1).Some? ==> Avoids(s[c + 1..HandlerEnd(s, c + 1).value], {':'})
  {
    if c > a {
      AppSound(s, a);
    }
    if c < |s| && HandlerEnd(s, c + 1).Some? {
      HandlerSound(s, c + 1);
    }
  }

  /** RIG_URL_BUILDER[:api]: `<(api|sapi)(#\w+)?:handler:verb(:predicate)?(:sufix)?/>` with the
      groups 1 kind, 2 `#app`, 3 handler, 4 verb, 5 predicate and 6 sufix. A match names its
      kind, a `#word` application when there is one, a non-empty handler without `:`, a
      non-empty verb without `:` or `/`, a predicate like the verb and a sufix without `/`. */
  function MatchApi(s: string, i: nat): (r: Option<Match>)
    ensures Fits(s, i, r)
    ensures r.Some? ==> var c := r.value.c;
            c.ApiC? && (c.kind == "api" || c.kind == "sapi")
            && (c.app.Some? ==> IsApp(c.app.value))
            && |c.handler| > 0 && Avoids(c.handler, {':'})
            && |c.verb| > 0 && Avoids(c.verb, {':', '/'})
            && (c.pred.Some? ==> |c.pred.value| > 0 && Avoids(c.pred.value, {':', '/'}))
            && (c.sufix.Some? ==> |c.sufix.value| > 0 && Avoids(c.sufix.value, {'/'}))
  {
    var kind := if StartsAt(s, i, "<api") then "api" else if StartsAt(s, i, "<sapi") then "sapi" else "";
    if kind == "" then None
    else
      var a := i + 1 + |kind|;
      match AppEnd(s, a)
      case None => None
      case Some(c) =>
        if !(c < |s| && s[c] == ':') then None
        else
          match HandlerEnd(s, c + 1)
          case None => None
          case Some(h) =>
            if !(h < |s| && s[h] == ':') then None
            else
              var v := RunEnd(s, h + 1, {':', '/'});
              if v == h + 1 || v == |s| then None
              else
                var app := if c > a then Some(s[a..c]) else None;
                AppAndHandler(s, a, c);
                RunAvoids(s, h + 1, {':', '/'}, {':', '/'});
                ApiTail(s, i, ApiC(kind, app, s[c + 1..h], s[h + 1..v], None, None), v)
  }

  /** The optional `:predicate` and `:sufix` after the verb, which ends at `v`, and the closing
      `/>`. The regexp tries the predicate first and, when the rest then fails, the sufix alone. */
  function ApiTail(s: string, i: nat, c: Construct, v: nat): (r: Option<Match>)
    requires i < v < |s| && c.ApiC? && c.pred.None? && c.sufix.None?
    ensures Fits(s, i, r)
    ensures r.Some? ==> r.value.c.ApiC? && r.value.c == c.(pred := r.value.c.pred, sufix := r.value.c.sufix)
    ensures r.Some? && r.value.c.pred.Some? ==> |r.value.c.pred.value| > 0 && Avoids(r.value.c.pred.value, {':', '/'})
    ensures r.Some? && r.value.c.sufix.Some? ==> |r.value.c.sufix.value| > 0 && Avoids(r.value.c.sufix.value, {'/'})
  {
    if s[v] == '/' then
      if StartsAt(s, v, "/>") then Some(Match(v + 2, c)) else None
    else
      var p := RunEnd(s, v + 1, {':', '/'});
      var q := RunEnd(s, v + 1, {'/'});
      RunAvoids(s, v + 1, {':', '/'}, {':', '/'});
      RunAvoids(s, v + 1, {'/'}, {'/'});
      var withPred :=
        if p > v + 1 && p < |s| && s[p] == '/' then
          if StartsAt(s, p, "/>") then Some(Match(p + 2, c.(pred := Some(s[v + 1..p])))) else None
        else if p > v + 1 && p < |s| && s[p] == ':' then
          var q2 := RunEnd(s, p + 1, {'/'});
          RunAvoids(s, p + 1, {'/'}, {'/'});
          if q2 > p + 1 && StartsAt(s, q2, "/>") then
            Some(Match(q2 + 2, c.(pred := Some(s[v + 1..p]), sufix := Some(s[p + 1..q2]))))
          else None
        else None;
      if withPred.Some? then withPred
      else if q > v + 1 && StartsAt(s, q, "/>") then Some(Match(q + 2, c.(sufix := Some(s[v + 1..q]))))
      else None
  }

  // ---------------------------------------------------------------- statements

  function LoopOpen(id: string): string { "<loop:" + id + ">" }
  function LoopClose(id: string): string { "</loop:" + id + ">" }
  function IfeOpen(id: string): string { "<ife:" + id + ">" }
  function IfeElse(id: string): string { "<else:" + id + "/>" }
  function IfeClose(id: string): string { "</ife:" + id + ">" }

  /** Where an ife then-body ends: nowhere, at a closing tag, or at an else tag followed later
      by a closing tag (the else-body then ends at the first such closing tag, `k`). */
  datatype Split = NoSplit | ThenOnly(t: nat) | WithElse(t: nat, k: nat)

  /** The first position `p >= from` where the then-body of an ife can end. At each position
      the optional else part is tried before the closing tag, as the regexp does. */
  /** The positions a split names lie in order after `from`, with room for the tags. */
  predicate SplitFits(s: string, from: nat, els: string, close: string, r: Split) {
    && (r.ThenOnly? ==> from <= r.t && r.t + |close| <= |s|)
    && (r.WithElse? ==> from <= r.t && r.t + |els| <= r.k && r.k + |close| <= |s|)
  }

  function IfeSplit(s: string, from: nat, els: string, close: string): (r: Split)
    requires |els| > 0 && |close| > 0
    ensures SplitFits(s, from, els, close, r)
    decreases |s| - from, 1
  {
    if from >= |s| then NoSplit else SplitAt(s, from, els, close)
  }

  /** The split at `from` when the then-body can end there, otherwise the next one. */
  function SplitAt(s: string, from: nat, els: string, close: string): (r: Split)
    requires |els| > 0 && |close| > 0 && from < |s|
    ensures SplitFits(s, from, els, close, r)
    decreases |s| - from, 0
  {
    var f := Find(s, from + |els|, close);
    if StartsAt(s, from, els) && f.Some? then WithElse(from, f.value)
    else if StartsAt(s, from, close) then ThenOnly(from)
    else IfeSplit(s, from + 1, els, close)
  }

  /** The tags at the positions a split names are there: a closing tag at the end of the
      then-body, or an else tag there and a closing tag at the end of the else-body. */
  lemma {:induction false} IfeSplitTags(s: string, from: nat, els: string, close: string)
    requires |els| > 0 && |close| > 0
    ensures var r := IfeSplit(s, from, els, close);
            (r.ThenOnly? ==> StartsAt(s, r.t, close))
            && (r.WithElse? ==> StartsAt(s, r.t, els) && StartsAt(s, r.k, close))
    decreases |s| - from
  {
    if from < |s| {
      var f := Find(s, from + |els|, close);
      if StartsAt(s, from, els) && f.Some? {
        FindFound(s, from + |els|, close);
      } else if !StartsAt(s, from, close) {
        IfeSplitTags(s, from + 1, els, close);
      }
    }
  }

  /** Position `p` cannot end an ife then-body: no closing tag starts there, and no else
      tag that a closing tag follows. */
  predicate CannotEndThen(s: string, p: nat, id: string) {
    !StartsAt(s, p, IfeClose(id)) && !(StartsAt(s, p, IfeElse(id)) && Find(s, p + |IfeElse(id)|, IfeClose(id)).Some?)
  }

  /** No position before the returned one could end the then-body: the split is the first. */
  lemma {:induction false} IfeSplitFirst(s: string, from: nat, els: string, close: string, p: nat)
    requires |els| > 0 && |close| > 0 && from <= p
    requires var r := IfeSplit(s, from, els, close); r.NoSplit? || p < r.t
    ensures !StartsAt(s, p, close) && !(StartsAt(s, p, els) && Find(s, p + |els|, close).Some?)
    decreases |s| - from
  {
    if from < |s| && from < p {
      var f := Find(s, from + |els|, close);
      if !(StartsAt(s, from, els) && f.Some?) && !StartsAt(s, from, close) {
        IfeSplitFirst(s, from + 1, els, close, p);
      }
    }
  }

  /** A closing tag at or after `from` guarantees that the then-body can end somewhere. */
  lemma {:induction false} IfeSplitExists(s: string, from: nat, els: string, close: string, k: nat)
    requires |els| > 0 && |close| > 0 && from <= k && StartsAt(s, k, close)
    ensures !IfeSplit(s, from, els, close).NoSplit?
    decreases k - from
  {
    if from < k {
      IfeSplitExists(s, from + 1, els, close, k);
    }
  }

  /** A statement match whose bodies are shorter than the matched span, so that parsing them
      recursively terminates. */
  predicate Nests(i: nat, m: Match) {
    || (m.c.LoopC? && |m.c.body| < m.end - i)
    || (m.c.IfeC? && |m.c.thenBody| < m.end - i && (m.c.elseBody.Some? ==> |m.c.elseBody.value| < m.end - i))
  }

  /** RIG_STATEMENTS: `<loop:id>body</loop:id>` or `<ife:id>then(<else:id/>else)?</ife:id>`,
      bodies the shortest possible, across lines. */
  function MatchStatement(s: string, i: nat): (r: Option<Match>)
    ensures Fits(s, i, r)
    ensures r.Some? ==> Nests(i, r.value)
  {
    if StartsAt(s, i, "<loop:") then MatchLoop(s, i)
    else if StartsAt(s, i, "<ife:") then MatchIfe(s, i)
    else None
  }

  function MatchLoop(s: string, i: nat): (r: Option<Match>)
    requires StartsAt(s, i, "<loop:")
    ensures Fits(s, i, r)
    ensures r.Some? ==> r.value.c.LoopC? && Nests(i, r.value)
  {
    var j := WordEnd(s, i + 6);
    if j == i + 6 || !(j < |s| && s[j] == '>') then None
    else
      var id := s[i + 6..j];
      LoopAt(s, i, id, Find(s, j + 1, LoopClose(id)))
  }

  /** The loop match for the opening tag `<loop:id>` written at `i` and the position of the
      first closing tag after it, if any. */
  function LoopAt(s: string, i: nat, id: string, k: Option<nat>): (r: Option<Match>)
    requires i + 6 + |id| < |s|
    requires k.Some? ==> i + 7 + |id| <= k.value && k.value + |LoopClose(id)| <= |s|
    ensures Fits(s, i, r)
    ensures r.Some? ==> r.value.c.LoopC? && Nests(i, r.value)
  {
    match k
    case None => None
    case Some(k) => Some(Match(k + |LoopClose(id)|, LoopC(id, s[i + 7 + |id|..k])))
  }

  function MatchIfe(s: string, i: nat): (r: Option<Match>)
    requires StartsAt(s, i, "<ife:")
    ensures Fits(s, i, r)
    ensures r.Some? ==> r.value.c.IfeC? && Nests(i, r.value)
  {
    var j := WordEnd(s, i + 5);
    if j == i + 5 || !(j < |s| && s[j] == '>') then None
    else
      var id := s[i + 5..j];
      IfeAt(s, i, id, IfeSplit(s, j + 1, IfeElse(id), IfeClose(id)))
  }

  /** The ife match for the opening tag `<ife:id>` written at `i` and the split found after
      it: the bodies are cut where the split says. */
  function IfeAt(s: string, i: nat, id: string, sp: Split): (r: Option<Match>)
    requires i + 5 + |id| < |s| && SplitFits(s, i + 6 + |id|, IfeElse(id), IfeClose(id), sp)
    ensures Fits(s, i, r)
    ensures r.Some? ==> r.value.c.IfeC? && Nests(i, r.value)
  {
    var b := i + 6 + |id|;
    match sp
    case NoSplit => None
    case ThenOnly(t) => Some(Match(t + |IfeClose(id)|, IfeC(id, s[b..t], None)))
    case WithElse(t, k) => Some(Match(k + |IfeClose(id)|, IfeC(id, s[b..t], Some(s[t + |IfeElse(id)|..k]))))
  }

  predicate LoopForm(w: string, id: string, body: string) {
    w == LoopOpen(id) + body + LoopClose(id) && IsWord(id)
  }

  predicate IfeForm(w: string, id: string, thenBody: string, elseBody: Option<string>) {
    IsWord(id)
    && w == IfeOpen(id) + thenBody + (if elseBody.Some? then IfeElse(id) + elseBody.value else "") + IfeClose(id)
  }

  lemma {:induction false} WordPrefix(s: string, a: nat, id: string, next: char)
    requires IsWord(id) && !IsWordChar(next)
    requires a + |id| < |s| && s[a..a + |id|] == id && s[a + |id|] == next
    ensures WordEnd(s, a) == a + |id|
  {
    forall k | a <= k < a + |id| ensures IsWordChar(s[k]) {
      assert s[k] == id[k - a];
    }
    WordEndAt(s, a, a + |id|);
  }

  lemma {:induction false} OpenTag(s: string, i: nat, kw: string, id: string)
    requires StartsAt(s, i, kw + id + ">") && IsWord(id)
    ensures StartsAt(s, i, kw) && WordEnd(s, i + |kw|) == i + |kw| + |id|
    ensures i + |kw| + |id| < |s| && s[i + |kw| + |id|] == '>' && s[i + |kw|..i + |kw| + |id|] == id
  {
    var e := i + |kw| + |id| + 1;
    SpanParts(s, i, e, kw, id, ">");
    WordPrefix(s, i + |kw|, id, '>');
  }

  /** The open tag, body and closing tag of a statement, reassembled. */
  lemma Assemble(s: string, i: nat, j: nat, k: nat, e: nat, open: string, close: string)
    requires i <= j <= k <= e <= |s| && s[i..j] == open && StartsAt(s, k, close) && e == k + |close|
    ensures s[i..e] == open + s[j..k] + close
  {
    StartsAtSlice(s, k, close);
    SliceSplit(s, i, j, k);
    SliceSplit(s, i, k, e);
  }

  lemma OpenAt(s: string, i: nat, j: nat, kw: string)
    requires i + |kw| < j < |s| && StartsAt(s, i, kw) && s[j] == '>'
    ensures s[i..j + 1] == kw + s[i + |kw|..j] + ">"
  {
    StartsAtSlice(s, i, kw);
    SliceSplit(s, i, i + |kw|, j);
    SliceSplit(s, i, j, j + 1);
  }

  /** The fields of a loop match whose opening tag `<loop:id>` is at `i` and whose first
      closing tag after it is at `k`. */
  predicate LoopParts(s: string, i: nat, id: string, k: Option<nat>, m: Match) {
    k.Some? && i + 7 + |id| <= k.value && k.value + |LoopClose(id)| <= |s|
    && m.c.LoopC? && m.c.id == id && m.c.body == s[i + 7 + |id|..k.value]
    && m.end == k.value + |LoopClose(id)|
  }

  /** How a loop match decomposes: its id is a word written in the opening tag, and the body
      runs up to the first closing tag after it. */
  lemma LoopView(s: string, i: nat)
    requires StartsAt(s, i, "<loop:") && MatchLoop(s, i).Some?
    ensures var m := MatchLoop(s, i).value;
            m.c.LoopC? && IsWord(m.c.id) && i + 6 + |m.c.id| < |s| && s[i..i + 7 + |m.c.id|] == LoopOpen(m.c.id)
            && LoopParts(s, i, m.c.id, Find(s, i + 7 + |m.c.id|, LoopClose(m.c.id)), m)
  {
    var j := WordEnd(s, i + 6);
    var id := s[i + 6..j];
    var k := Find(s, j + 1, LoopClose(id));
    assert MatchLoop(s, i) == LoopAt(s, i, id, k);
    LoopAtParts(s, i, id, k);
    OpenAt(s, i, j, "<loop:");
  }

  lemma LoopAtParts(s: string, i: nat, id: string, k: Option<nat>)
    requires i + 6 + |id| < |s|
    requires k.Some? ==> i + 7 + |id| <= k.value && k.value + |LoopClose(id)| <= |s|
    requires LoopAt(s, i, id, k).Some?
    ensures LoopParts(s, i, id, k, LoopAt(s, i, id, k).value)
  {
  }

  /** A loop match is a loop form. */
  lemma LoopSound(s: string, i: nat)
    requires StartsAt(s, i, "<loop:") && MatchLoop(s, i).Some?
    ensures var m := MatchLoop(s, i).value; m.c.LoopC? && LoopForm(s[i..m.end], m.c.id, m.c.body)
  {
    LoopView(s, i);
    var m := MatchLoop(s, i).value;
    var id := m.c.id;
    var b := i + 7 + |id|;
    FindFound(s, b, LoopClose(id));
    LoopAtForm(s, i, id, Find(s, b, LoopClose(id)).value, m);
  }

  lemma LoopAtForm(s: string, i: nat, id: string, k: nat, m: Match)
    requires LoopParts(s, i, id, Some(k), m) && IsWord(id)
    requires StartsAt(s, k, LoopClose(id)) && s[i..i + 7 + |id|] == LoopOpen(id)
    ensures m.c.LoopC? && m.end <= |s| && LoopForm(s[i..m.end], m.c.id, m.c.body)
  {
    Assemble(s, i, i + 7 + |id|, k, k + |LoopClose(id)|, LoopOpen(id), LoopClose(id));
  }

  /** The loop body is the shortest: no closing tag of the same id starts inside it. */
  lemma LoopShortest(s: string, i: nat, p: nat)
    requires StartsAt(s, i, "<loop:") && MatchLoop(s, i).Some?
    requires var c := MatchLoop(s, i).value.c; i + |LoopOpen(c.id)| <= p < i + |LoopOpen(c.id)| + |c.body|
    ensures !StartsAt(s, p, LoopClose(MatchLoop(s, i).value.c.id))
  {
    LoopView(s, i);
    var id := MatchLoop(s, i).value.c.id;
    FindFirst(s, i + 7 + |id|, LoopClose(id), p);
  }

  /** Any span of the loop form makes the recogniser match at its start, with that id. */
  lemma LoopComplete(s: string, i: nat, e: nat, id: string, body: string)
    requires i <= e <= |s| && LoopForm(s[i..e], id, body)
    ensures StartsAt(s, i, "<loop:") && MatchLoop(s, i).Some? && MatchLoop(s, i).value.c.id == id
  {
    SpanParts(s, i, e, LoopOpen(id), body, LoopClose(id));
    LoopCloses(s, i, id, i + 7 + |id| + |body|);
  }

  /** An opening tag `<loop:id>` at `i` and a closing tag after it make the recogniser match. */
  lemma LoopCloses(s: string, i: nat, id: string, k: nat)
    requires StartsAt(s, i, LoopOpen(id)) && IsWord(id) && i + 7 + |id| <= k && StartsAt(s, k, LoopClose(id))
    ensures StartsAt(s, i, "<loop:") && MatchLoop(s, i).Some? && MatchLoop(s, i).value.c.id == id
  {
    OpenTag(s, i, "<loop:", id);
    FindExists(s, i + 7 + |id|, LoopClose(id), k);
    assert MatchLoop(s, i) == LoopAt(s, i, id, Find(s, i + 7 + |id|, LoopClose(id)));
  }

  /** The fields of an ife match whose opening tag `<ife:id>` is at `i`, in terms of the split
      found after that tag. */
  predicate IfeParts(s: string, i: nat, id: string, sp: Split, m: Match) {
    var b := i + 6 + |id|;
    b <= |s| && SplitFits(s, b, IfeElse(id), IfeClose(id), sp) && !sp.NoSplit?
    && m.c.IfeC? && m.c.test == id && m.c.thenBody == s[b..sp.t]
    && (m.c.elseBody.Some? <==> sp.WithElse?)
    && (sp.WithElse? ==> m.c.elseBody.value == s[sp.t + |IfeElse(id)|..sp.k] && m.end == sp.k + |IfeClose(id)|)
    && (sp.ThenOnly? ==> m.end == sp.t + |IfeClose(id)|)
    && sp.t == b + |m.c.thenBody|
    && (sp.WithElse? ==> sp.t + |IfeElse(id)| + |m.c.elseBody.value| == sp.k)
  }

  /** The opening tag of an ife match: its test id is a word written as `<ife:id>`. */
  lemma IfeOpenView(s: string, i: nat)
    requires StartsAt(s, i, "<ife:") && MatchIfe(s, i).Some?
    ensures var id := MatchIfe(s, i).value.c.test;
            MatchIfe(s, i).value.c.IfeC? && IsWord(id) && i + 5 + |id| < |s| && s[i..i + 6 + |id|] == IfeOpen(id)
  {
    var j := WordEnd(s, i + 5);
    var id := s[i + 5..j];
    var sp := IfeSplit(s, j + 1, IfeElse(id), IfeClose(id));
    assert MatchIfe(s, i) == IfeAt(s, i, id, sp);
    OpenAt(s, i, j, "<ife:");
  }

  /** How the rest of an ife match decomposes: it is cut where the split after the opening
      tag says. */
  lemma IfeView(s: string, i: nat)
    requires StartsAt(s, i, "<ife:") && MatchIfe(s, i).Some?
    ensures var m := MatchIfe(s, i).value;
            var id := m.c.test;
            i + 5 + |id| < |s| && IfeParts(s, i, id, IfeSplit(s, i + 6 + |id|, IfeElse(id), IfeClose(id)), m)
  {
    var j := WordEnd(s, i + 5);
    var id := s[i + 5..j];
    var sp := IfeSplit(s, j + 1, IfeElse(id), IfeClose(id));
    assert MatchIfe(s, i) == IfeAt(s, i, id, sp);
    IfeAtParts(s, i, id, sp);
    assert MatchIfe(s, i).value.c.test == id;
  }

  /** The fields of the match IfeAt builds, in terms of its split. */
  lemma IfeAtParts(s: string, i: nat, id: string, sp: Split)
    requires i + 5 + |id| < |s| && SplitFits(s, i + 6 + |id|, IfeElse(id), IfeClose(id), sp)
    requires IfeAt(s, i, id, sp).Some?
    ensures IfeParts(s, i, id, sp, IfeAt(s, i, id, sp).value)
  {
  }

  /** An ife match is an ife form. */
  lemma IfeSound(s: string, i: nat)
    requires StartsAt(s, i, "<ife:") && MatchIfe(s, i).Some?
    ensures var m := MatchIfe(s, i).value;
            m.c.IfeC? && IfeForm(s[i..m.end], m.c.test, m.c.thenBody, m.c.elseBody)
  {
    IfeOpenView(s, i);
    IfeView(s, i);
    var m := MatchIfe(s, i).value;
    var id := m.c.test;
    var b := i + 6 + |id|;
    IfeSplitTags(s, b, IfeElse(id), IfeClose(id));
    IfeAtForm(s, i, id, IfeSplit(s, b, IfeElse(id), IfeClose(id)), m);
  }

  lemma IfeAtForm(s: string, i: nat, id: string, sp: Split, m: Match)
    requires IfeParts(s, i, id, sp, m) && s[i..i + 6 + |id|] == IfeOpen(id) && IsWord(id)
    requires sp.ThenOnly? ==> StartsAt(s, sp.t, IfeClose(id))
    requires sp.WithElse? ==> StartsAt(s, sp.t, IfeElse(id)) && StartsAt(s, sp.k, IfeClose(id))
    ensures m.c.IfeC? && m.end <= |s| && IfeForm(s[i..m.end], id, m.c.thenBody, m.c.elseBody)
  {
    var b := i + 6 + |id|;
    if sp.WithElse? {
      IfeElseForm(s, i, b, sp.t, sp.k, id);
    } else {
      IfeThenForm(s, i, b, sp.t, id);
    }
  }

  lemma IfeThenForm(s: string, i: nat, b: nat, t: nat, id: string)
    requires b == i + 6 + |id| <= t && StartsAt(s, t, IfeClose(id)) && s[i..b] == IfeOpen(id) && IsWord(id)
    ensures IfeForm(s[i..t + |IfeClose(id)|], id, s[b..t], None)
  {
    Assemble(s, i, b, t, t + |IfeClose(id)|, IfeOpen(id), IfeClose(id));
    assert IfeOpen(id) + s[b..t] + "" == IfeOpen(id) + s[b..t];
  }

  lemma IfeElseForm(s: string, i: nat, b: nat, t: nat, k: nat, id: string)
    requires b == i + 6 + |id| <= t && StartsAt(s, t, IfeElse(id)) && t + |IfeElse(id)| <= k
    requires StartsAt(s, k, IfeClose(id)) && s[i..b] == IfeOpen(id) && IsWord(id)
    ensures IfeForm(s[i..k + |IfeClose(id)|], id, s[b..t], Some(s[t + |IfeElse(id)|..k]))
  {
    var el := t + |IfeElse(id)|;
    var th, eb := s[b..t], s[el..k];
    Assemble(s, i, b, k, k + |IfeClose(id)|, IfeOpen(id), IfeClose(id));
    SliceSplit(s, b, t, k);
    SliceSplit(s, t, el, k);
    assert s[t..el] == IfeElse(id);
    assert s[b..k] == th + (IfeElse(id) + eb);
    Assoc(IfeOpen(id), th, IfeElse(id) + eb);
  }

  /** The then-body of an ife match is the shortest: no position inside it holds the closing
      tag, or an else tag that a closing tag follows. */
  lemma IfeThenShortest(s: string, i: nat, p: nat)
    requires StartsAt(s, i, "<ife:") && MatchIfe(s, i).Some?
    requires var c := MatchIfe(s, i).value.c;
             i + |IfeOpen(c.test)| <= p < i + |IfeOpen(c.test)| + |c.thenBody|
    ensures CannotEndThen(s, p, MatchIfe(s, i).value.c.test)
  {
    IfeView(s, i);
    var id := MatchIfe(s, i).value.c.test;
    IfeThenAt(s, i + 6 + |id|, id, p);
  }

  /** No position between the opening tag and the then end a split names can end the
      then-body. */
  lemma IfeThenAt(s: string, b: nat, id: string, p: nat)
    requires var sp := IfeSplit(s, b, IfeElse(id), IfeClose(id));
             !sp.NoSplit? && b <= p < sp.t
    ensures CannotEndThen(s, p, id)
  {
    IfeSplitFirst(s, b, IfeElse(id), IfeClose(id), p);
  }

  /** The else-body of an ife match is the shortest: no closing tag starts inside it. */
  lemma IfeElseShortest(s: string, i: nat, p: nat)
    requires StartsAt(s, i, "<ife:") && MatchIfe(s, i).Some? && MatchIfe(s, i).value.c.elseBody.Some?
    requires var m := MatchIfe(s, i).value;
             m.end - |IfeClose(m.c.test)| - |m.c.elseBody.value| <= p < m.end - |IfeClose(m.c.test)|
    ensures !StartsAt(s, p, IfeClose(MatchIfe(s, i).value.c.test))
  {
    IfeView(s, i);
    var m := MatchIfe(s, i).value;
    var id := m.c.test;
    IfeElseAt(s, i + 6 + |id|, id, p);
  }

  /** No closing tag starts between the else tag and the closing tag a split names. */
  lemma IfeElseAt(s: string, b: nat, id: string, p: nat)
    requires var sp := IfeSplit(s, b, IfeElse(id), IfeClose(id));
             sp.WithElse? && sp.t + |IfeElse(id)| <= p < sp.k
    ensures !StartsAt(s, p, IfeClose(id))
  {
    var sp := IfeSplit(s, b, IfeElse(id), IfeClose(id));
    IfeSplitElse(s, b, IfeElse(id), IfeClose(id));
    FindFirst(s, sp.t + |IfeElse(id)|, IfeClose(id), p);
  }

  /** The else-body of a split ends at the first closing tag after the else tag. */
  lemma {:induction false} IfeSplitElse(s: string, from: nat, els: string, close: string)
    requires |els| > 0 && |close| > 0
    ensures var r := IfeSplit(s, from, els, close); r.WithElse? ==> Find(s, r.t + |els|, close).Some? && Find(s, r.t + |els|, close).value == r.k
    decreases |s| - from
  {
    if from < |s| {
      var f := Find(s, from + |els|, close);
      if !(StartsAt(s, from, els) && f.Some?) && !StartsAt(s, from, close) {
        IfeSplitElse(s, from + 1, els, close);
      }
    }
  }

  /** Any span of the ife form makes the recogniser match at its start, with that test id. */
  lemma IfeComplete(s: string, i: nat, e: nat, id: string, thenBody: string, elseBody: Option<string>)
    requires i <= e <= |s| && IfeForm(s[i..e], id, thenBody, elseBody)
    ensures StartsAt(s, i, "<ife:") && MatchIfe(s, i).Some? && MatchIfe(s, i).value.c.test == id
  {
    var mid := thenBody + (if elseBody.Some? then IfeElse(id) + elseBody.value else "");
    assert s[i..e] == IfeOpen(id) + mid + IfeClose(id);
    SpanParts(s, i, e, IfeOpen(id), mid, IfeClose(id));
    IfeCloses(s, i, id, i + 6 + |id| + |mid|);
  }

  /** An opening tag `<ife:id>` at `i` and a closing tag after it make the recogniser match. */
  lemma IfeCloses(s: string, i: nat, id: string, k: nat)
    requires StartsAt(s, i, IfeOpen(id)) && IsWord(id) && i + 6 + |id| <= k && StartsAt(s, k, IfeClose(id))
    ensures StartsAt(s, i, "<ife:") && MatchIfe(s, i).Some? && MatchIfe(s, i).value.c.test == id
  {
    IfeOpenMatch(s, i, id);
    var sp := IfeSplit(s, i + 6 + |id|, IfeElse(id), IfeClose(id));
    IfeSplitExists(s, i + 6 + |id|, IfeElse(id), IfeClose(id), k);
    IfeAtParts(s, i, id, sp);
  }

  /** An opening tag `<ife:id>` at `i` hands the rest of the match to IfeAt. */
  lemma IfeOpenMatch(s: string, i: nat, id: string)
    requires StartsAt(s, i, IfeOpen(id)) && IsWord(id)
    ensures StartsAt(s, i, "<ife:") && i + 5 + |id| < |s|
    ensures MatchIfe(s, i) == IfeAt(s, i, id, IfeSplit(s, i + 6 + |id|, IfeElse(id), IfeClose(id)))
  {
    OpenTag(s, i, "<ife:", id);
  }

  /** A statement is matched at `i` exactly when a loop span or an ife span starts there,
      and what is matched is one of the two forms. */
  lemma StatementSpan(s: string, i: nat)
    ensures MatchStatement(s, i).Some? <==>
              (exists e: nat, id, body :: i <= e <= |s| && LoopForm(s[i..e], id, body))
              || (exists e: nat, id, thenBody, elseBody :: i <= e <= |s| && IfeForm(s[i..e], id, thenBody, elseBody))
    ensures MatchStatement(s, i).Some? ==>
              var m := MatchStatement(s, i).value;
              (m.c.LoopC? && LoopForm(s[i..m.end], m.c.id, m.c.body))
              || (m.c.IfeC? && IfeForm(s[i..m.end], m.c.test, m.c.thenBody, m.c.elseBody))
  {
    if MatchStatement(s, i).Some? {
      var m := MatchStatement(s, i).value;
      if StartsAt(s, i, "<loop:") {
        LoopSound(s, i);
        assert i <= m.end <= |s| && LoopForm(s[i..m.end], m.c.id, m.c.body);
      } else {
        IfeSound(s, i);
        assert i <= m.end <= |s| && IfeForm(s[i..m.end], m.c.test, m.c.thenBody, m.c.elseBody);
      }
    }
    if exists e: nat, id, body :: i <= e <= |s| && LoopForm(s[i..e], id, body) {
      var e: nat, id, body :| i <= e <= |s| && LoopForm(s[i..e], id, body);
      LoopComplete(s, i, e, id, body);
    } else if exists e: nat, id, thenBody, elseBody :: i <= e <= |s| && IfeForm(s[i..e], id, thenBody, elseBody) {
      var e: nat, id, thenBody, elseBody :| i <= e <= |s| && IfeForm(s[i..e], id, thenBody, elseBody);
      IfeComplete(s, i, e, id, thenBody, elseBody);
      assert "<ife:"[1] != "<loop:"[1];
    }
  }

  // ---------------------------------------------------------------- templates

  /** `\w+(?:@\w+)?` at `j`: the end of a template id, None when there is no word. */
  function TplIdEnd(s: string, j: nat): (r: Option<nat>)
    requires j <= |s|
    ensures r.Some? ==> j < r.value <= |s| && IsTplId(s[j..r.value])
  {
    var w := WordEnd(s, j);
    if w == j then None
    else if w < |s| && s[w] == '@' && WordEnd(s, w + 1) > w + 1 then
      var w2 := WordEnd(s, w + 1);
      assert IsWord(s[j..w]) && IsWord(s[w + 1..w2]);
      assert s[j..w2] == s[j..w] + "@" + s[w + 1..w2];
      Some(w2)
    else
      assert IsWord(s[j..w]);
      Some(w)
  }

  /** A template id: a word, optionally followed by one `@word` segment. */
  predicate IsTplId(t: string) {
    IsWord(t) || exists k :: 0 < k < |t| - 1 && t[k] == '@' && IsWord(t[..k]) && IsWord(t[k + 1..])
  }

  /** A template reference: its id, its optional parameter list and where it ends. */
  datatype Ref = Ref(id: string, params: Option<string>, end: nat)

  /** `id(?:\[(PAIRS)\])?` at `j`, None when there is no id or the list is broken. */
  function RefAt(s: string, j: nat): (r: Option<Ref>)
    requires j <= |s|
    ensures r.Some? ==> j < r.value.end <= |s| && IsTplId(r.value.id)
    ensures r.Some? && r.value.params.Some? ==> IsPairList(r.value.params.value)
  {
    match TplIdEnd(s, j)
    case None => None
    case Some(w) =>
      match ParamsAt(s, w)
      case Broken => None
      case Absent => Some(Ref(s[j..w], None, w))
      case Present(p, pe) => Some(Ref(s[j..w], Some(p), pe))
  }

  /** RIG_TEMPLATES: `<blk:ref/>`, `<iblk:test:ref:ref/>` or `<static:ref/>`. */
  function MatchTemplate(s: string, i: nat): (r: Option<Match>)
    ensures Fits(s, i, r)
    ensures r.Some? ==> r.value.c.BlkC? || r.value.c.IBlkC? || r.value.c.StaticC?
  {
    if StartsAt(s, i, "<blk:") then MatchBlk(s, i)
    else if StartsAt(s, i, "<iblk:") then MatchIBlk(s, i)
    else if StartsAt(s, i, "<static:") then MatchStatic(s, i)
    else None
  }

  function MatchBlk(s: string, i: nat): (r: Option<Match>)
    requires StartsAt(s, i, "<blk:")
    ensures Fits(s, i, r)
    ensures r.Some? ==> r.value.c.BlkC?
  {
    match RefAt(s, i + 5)
    case None => None
    case Some(f) => if StartsAt(s, f.end, "/>") then Some(Match(f.end + 2, BlkC(f.id, f.params))) else None
  }

  function MatchIBlk(s: string, i: nat): (r: Option<Match>)
    requires StartsAt(s, i, "<iblk:")
    ensures Fits(s, i, r)
    ensures r.Some? ==> r.value.c.IBlkC?
  {
    var t := WordEnd(s, i + 6);
    if t == i + 6 || !(t < |s| && s[t] == ':') then None
    else IBlkThen(s, i, t, RefAt(s, t + 1))
  }

  /** After `<iblk:test:` (the `:` at `t`) and the then-reference `r1` read there: a `:`,
      then the rest. */
  function IBlkThen(s: string, i: nat, t: nat, r1: Option<Ref>): (r: Option<Match>)
    requires i + 6 < t < |s| && (r1.Some? ==> t + 1 < r1.value.end <= |s|)
    ensures Fits(s, i, r) && (r.Some? ==> r.value.c.IBlkC?)
  {
    match r1
    case None => None
    case Some(f1) =>
      if !(f1.end < |s| && s[f1.end] == ':') then None else IBlkElse(s, i, t, f1, RefAt(s, f1.end + 1))
  }

  /** After the then-reference `f1` and its `:`, the else-reference `r2` and the closing `/>`. */
  function IBlkElse(s: string, i: nat, t: nat, f1: Ref, r2: Option<Ref>): (r: Option<Match>)
    requires i + 6 < t < f1.end < |s| && (r2.Some? ==> f1.end + 1 < r2.value.end <= |s|)
    ensures Fits(s, i, r) && (r.Some? ==> r.value.c.IBlkC?)
  {
    match r2
    case None => None
    case Some(f2) =>
      if StartsAt(s, f2.end, "/>") then Some(Match(f2.end + 2, IBlkC(s[i + 6..t], f1.id, f1.params, f2.id, f2.params)))
      else None
  }

  function MatchStatic(s: string, i: nat): (r: Option<Match>)
    requires StartsAt(s, i, "<static:")
    ensures Fits(s, i, r)
    ensures r.Some? ==> r.value.c.StaticC?
  {
    match RefAt(s, i + 8)
    case None => None
    case Some(f) => if StartsAt(s, f.end, "/>") then Some(Match(f.end + 2, StaticC(f.id, f.params))) else None
  }

  /** The text of an optional parameter list, brackets included. */
  function ParamsText(p: Option<string>): string {
    if p.Some? then "[" + p.value + "]" else ""
  }

  predicate BlkForm(w: string, id: string, params: Option<string>) {
    w == "<blk:" + id + ParamsText(params) + "/>" && IsTplId(id) && (params.Some? ==> IsPairList(params.value))
  }

  /** A template match is a blk, an iblk whose test is a word, or a static; every template id
      is a word with at most one `@segment` and every parameter list a valid pair list. */
  lemma TemplateSound(s: string, i: nat)
    requires MatchTemplate(s, i).Some?
    ensures var c := MatchTemplate(s, i).value.c;
            || (c.BlkC? && IsTplId(c.id) && (c.params.Some? ==> IsPairList(c.params.value)))
            || (c.IBlkC? && IsWord(c.test) && IsTplId(c.thenId) && IsTplId(c.elseId)
                && (c.thenParams.Some? ==> IsPairList(c.thenParams.value))
                && (c.elseParams.Some? ==> IsPairList(c.elseParams.value)))
            || (c.StaticC? && IsTplId(c.id) && (c.params.Some? ==> IsPairList(c.params.value)))
  {
    if !StartsAt(s, i, "<blk:") && StartsAt(s, i, "<iblk:") {
      var t := WordEnd(s, i + 6);
      assert IsWord(s[i + 6..t]);
    }
  }

  /** A reference spans its id followed by its parameter list, brackets included. */
  lemma RefSpan(s: string, j: nat)
    requires j <= |s| && RefAt(s, j).Some?
    ensures var f := RefAt(s, j).value; s[j..f.end] == f.id + ParamsText(f.params)
  {
    var f := RefAt(s, j).value;
    RefSpanAt(s, j, TplIdEnd(s, j).value, f.id, f.params, f.end);
  }

  lemma RefSpanAt(s: string, j: nat, w: nat, id: string, params: Option<string>, end: nat)
    requires j <= w <= end <= |s| && id == s[j..w]
    requires params.None? ==> end == w
    requires params.Some? ==> w + 2 <= end && s[w] == '[' && s[end - 1] == ']' && params.value == s[w + 1..end - 1]
    ensures s[j..end] == id + ParamsText(params)
  {
    SliceSplit(s, j, w, end);
    if params.Some? {
      assert s[w..end] == [s[w]] + params.value + [s[end - 1]];
    }
  }

  /** A blk match spans exactly `<blk:id[params]/>`. */
  lemma BlkSound(s: string, i: nat)
    requires StartsAt(s, i, "<blk:") && MatchBlk(s, i).Some?
    ensures var m := MatchBlk(s, i).value; m.c.BlkC? && BlkForm(s[i..m.end], m.c.id, m.c.params)
  {
    var f := RefAt(s, i + 5).value;
    RefSpan(s, i + 5);
    BlkSpan(s, i, f, MatchBlk(s, i).value);
  }

  lemma BlkSpan(s: string, i: nat, f: Ref, m: Match)
    requires i + 5 < f.end && f.end + 2 <= |s| && StartsAt(s, i, "<blk:") && StartsAt(s, f.end, "/>")
    requires s[i + 5..f.end] == f.id + ParamsText(f.params)
    requires IsTplId(f.id) && (f.params.Some? ==> IsPairList(f.params.value))
    requires m == Match(f.end + 2, BlkC(f.id, f.params))
    ensures m.c.BlkC? && BlkForm(s[i..m.end], m.c.id, m.c.params)
  {
    SliceSplit(s, i, i + 5, f.end);
    SliceSplit(s, i, f.end, f.end + 2);
  }

  /** A template id followed by a character that cannot extend it is recognised in full. */
  lemma TplIdComplete(s: string, j: nat, id: string)
    requires IsTplId(id) && j + |id| < |s| && s[j..j + |id|] == id
    requires !IsWordChar(s[j + |id|]) && s[j + |id|] != '@'
    ensures TplIdEnd(s, j) == Some(j + |id|)
  {
    if IsWord(id) {
      WordPrefix(s, j, id, s[j + |id|]);
    } else {
      var k :| 0 < k < |id| - 1 && id[k] == '@' && IsWord(id[..k]) && IsWord(id[k + 1..]);
      TplIdSegments(s, j, id, k);
    }
  }

  lemma TplIdSegments(s: string, j: nat, id: string, k: nat)
    requires 0 < k < |id| - 1 && id[k] == '@' && IsWord(id[..k]) && IsWord(id[k + 1..])
    requires j + |id| < |s| && s[j..j + |id|] == id
    requires !IsWordChar(s[j + |id|]) && s[j + |id|] != '@'
    ensures TplIdEnd(s, j) == Some(j + |id|)
  {
    assert s[j..j + k] == id[..k];
    assert s[j + k] == id[k];
    WordPrefix(s, j, id[..k], '@');
    assert s[j + k + 1..j + |id|] == id[k + 1..];
    WordPrefix(s, j + k + 1, id[k + 1..], s[j + |id|]);
  }

  /** Any span of the blk form is matched in full at its start. */
  lemma BlkComplete(s: string, i: nat, e: nat, id: string, params: Option<string>)
    requires i <= e <= |s| && BlkForm(s[i..e], id, params)
    ensures StartsAt(s, i, "<blk:")
    ensures var r := MatchBlk(s, i); r.Some? && r.value.end == e && r.value.c == BlkC(id, params)
  {
    var pt := ParamsText(params);
    SpanParts(s, i, e, "<blk:", id, pt + "/>");
    var w := i + 5 + |id|;
    SpanParts(s, w, e, pt, "/>", "");
    RefComplete(s, i + 5, id, params);
    BlkMatches(s, i, RefAt(s, i + 5).value);
  }

  /** A blk tag whose reference was recognised ends right after the reference's `/>`. */
  lemma BlkMatches(s: string, i: nat, f: Ref)
    requires StartsAt(s, i, "<blk:") && RefAt(s, i + 5) == Some(f) && StartsAt(s, f.end, "/>")
    ensures var r := MatchBlk(s, i); r.Some? && r.value.end == f.end + 2 && r.value.c == BlkC(f.id, f.params)
  {
  }

  predicate StaticForm(w: string, id: string, params: Option<string>) {
    w == "<static:" + id + ParamsText(params) + "/>" && IsTplId(id) && (params.Some? ==> IsPairList(params.value))
  }

  /** Any span of the static form is matched in full at its start. */
  lemma StaticComplete(s: string, i: nat, e: nat, id: string, params: Option<string>)
    requires i <= e <= |s| && StaticForm(s[i..e], id, params)
    ensures StartsAt(s, i, "<static:")
    ensures var r := MatchStatic(s, i); r.Some? && r.value.end == e && r.value.c == StaticC(id, params)
  {
    var pt := ParamsText(params);
    SpanParts(s, i, e, "<static:", id, pt + "/>");
    var w := i + 8 + |id|;
    SpanParts(s, w, e, pt, "/>", "");
    RefComplete(s, i + 8, id, params);
  }

  predicate IBlkForm(w: string, test: string, thenId: string, thenParams: Option<string>,
                     elseId: string, elseParams: Option<string>) {
    && w == "<iblk:" + test + ":" + (thenId + ParamsText(thenParams)) + ":" + (elseId + ParamsText(elseParams)) + "/>"
    && IsWord(test) && IsTplId(thenId) && IsTplId(elseId)
    && (thenParams.Some? ==> IsPairList(thenParams.value))
    && (elseParams.Some? ==> IsPairList(elseParams.value))
  }

  /** Any span of the iblk form is matched in full at its start. */
  lemma IBlkComplete(s: string, i: nat, e: nat, test: string, thenId: string, thenParams: Option<string>,
                     elseId: string, elseParams: Option<string>)
    requires i <= e <= |s| && IBlkForm(s[i..e], test, thenId, thenParams, elseId, elseParams)
    ensures StartsAt(s, i, "<iblk:")
    ensures var r := MatchIBlk(s, i);
            r.Some? && r.value.end == e && r.value.c == IBlkC(test, thenId, thenParams, elseId, elseParams)
  {
    var t := i + 6 + |test|;
    var m := t + 1 + |thenId| + |ParamsText(thenParams)|;
    var n := m + 1 + |elseId| + |ParamsText(elseParams)|;
    IBlkParts(s, i, e, test, thenId + ParamsText(thenParams), elseId + ParamsText(elseParams));
    IBlkAt(s, i, t, m, n, test, thenId, thenParams, elseId, elseParams);
  }

  /** The iblk pieces, located at `t`, `m` and `n`, make MatchIBlk succeed with them. */
  lemma IBlkAt(s: string, i: nat, t: nat, m: nat, n: nat, test: string, thenId: string,
               thenParams: Option<string>, elseId: string, elseParams: Option<string>)
    requires IsWord(test) && IsTplId(thenId) && IsTplId(elseId)
    requires thenParams.Some? ==> IsPairList(thenParams.value)
    requires elseParams.Some? ==> IsPairList(elseParams.value)
    requires t == i + 6 + |test| && m == t + 1 + |thenId| + |ParamsText(thenParams)|
    requires n == m + 1 + |elseId| + |ParamsText(elseParams)|
    requires StartsAt(s, i, "<iblk:") && StartsAt(s, n, "/>") && s[i + 6..t] == test && s[t] == ':'
    requires s[t + 1..m] == thenId + ParamsText(thenParams) && s[m] == ':'
    requires s[m + 1..n] == elseId + ParamsText(elseParams)
    ensures var r := MatchIBlk(s, i);
            r.Some? && r.value.end == n + 2 && r.value.c == IBlkC(test, thenId, thenParams, elseId, elseParams)
  {
    var f1 := Ref(thenId, thenParams, m);
    IBlkTestThen(s, i, t, m, test, thenId, thenParams);
    IBlkElseRef(s, i, t, f1, n, elseId, elseParams);
    IBlkMatchesRefs(s, i, t, m, n, test, thenId, thenParams, elseId, elseParams);
  }

  /** The pieces of an iblk span, located in `s`. */
  lemma IBlkParts(s: string, i: nat, e: nat, test: string, thenRef: string, elseRef: string)
    requires i <= e <= |s| && s[i..e] == "<iblk:" + test + ":" + thenRef + ":" + elseRef + "/>"
    ensures var t := i + 6 + |test|; var m := t + 1 + |thenRef|; var n := m + 1 + |elseRef|;
            && StartsAt(s, i, "<iblk:") && n + 2 == e && s[i + 6..t] == test && s[t] == ':'
            && s[t + 1..m] == thenRef && s[m] == ':' && s[m + 1..n] == elseRef && StartsAt(s, n, "/>")
  {
    var rest := ":" + elseRef + "/>";
    SpanParts(s, i, e, "<iblk:", test, ":" + thenRef + rest);
    var t := i + 6 + |test|;
    SpanParts(s, t, e, ":", thenRef, rest);
    assert s[t] == ":"[0];
    StartsAtSlice(s, i + 6, test);
    StartsAtSlice(s, t + 1, thenRef);
    var m := t + 1 + |thenRef|;
    SpanParts(s, m, e, ":", elseRef, "/>");
    assert s[m] == ":"[0];
    StartsAtSlice(s, m + 1, elseRef);
  }

  /** The test word of an iblk ends at its `:`, and its then-reference is recognised in full. */
  lemma IBlkTestThen(s: string, i: nat, t: nat, m: nat, test: string, thenId: string, thenParams: Option<string>)
    requires IsWord(test) && IsTplId(thenId) && (thenParams.Some? ==> IsPairList(thenParams.value))
    requires t == i + 6 + |test| && m == t + 1 + |thenId| + |ParamsText(thenParams)| && m < |s|
    requires StartsAt(s, i, "<iblk:") && s[i + 6..t] == test && s[t] == ':'
    requires s[t + 1..m] == thenId + ParamsText(thenParams) && s[m] == ':'
    ensures MatchIBlk(s, i) == IBlkThen(s, i, t, Some(Ref(thenId, thenParams, m)))
  {
    WordPrefix(s, i + 6, test, ':');
    RefIs(s, t + 1, m, thenId, thenParams);
    MatchIBlkThen(s, i, t);
  }

  /** After the then-reference and its `:`, the else-reference is recognised in full. */
  lemma IBlkElseRef(s: string, i: nat, t: nat, f1: Ref, n: nat, elseId: string, elseParams: Option<string>)
    requires i + 6 < t && t + 1 < f1.end < |s| && s[f1.end] == ':'
    requires IsTplId(elseId) && (elseParams.Some? ==> IsPairList(elseParams.value))
    requires n == f1.end + 1 + |elseId| + |ParamsText(elseParams)| && StartsAt(s, n, "/>")
    requires s[f1.end + 1..n] == elseId + ParamsText(elseParams)
    ensures IBlkThen(s, i, t, Some(f1)) == IBlkElse(s, i, t, f1, Some(Ref(elseId, elseParams, n)))
  {
    assert RefAt(s, f1.end + 1) == Some(Ref(elseId, elseParams, n)) by {
      RefBeforeClose(s, f1.end + 1, n, elseId, elseParams);
    }
    IBlkThenElse(s, i, t, f1);
  }

  lemma RefBeforeClose(s: string, j: nat, end: nat, id: string, params: Option<string>)
    requires IsTplId(id) && (params.Some? ==> IsPairList(params.value))
    requires end == j + |id| + |ParamsText(params)| && StartsAt(s, end, "/>")
    requires s[j..end] == id + ParamsText(params)
    ensures RefAt(s, j) == Some(Ref(id, params, end))
  {
    assert s[end] == "/>"[0];
    RefIs(s, j, end, id, params);
  }

  lemma RefIs(s: string, j: nat, end: nat, id: string, params: Option<string>)
    requires IsTplId(id) && (params.Some? ==> IsPairList(params.value))
    requires end == j + |id| + |ParamsText(params)| && end < |s| && s[j..end] == id + ParamsText(params)
    requires s[end] == '/' || s[end] == ':'
    ensures RefAt(s, j) == Some(Ref(id, params, end))
  {
    RefComplete(s, j, id, params);
  }

  lemma MatchIBlkThen(s: string, i: nat, t: nat)
    requires StartsAt(s, i, "<iblk:") && i + 6 < t < |s| && WordEnd(s, i + 6) == t && s[t] == ':'
    ensures MatchIBlk(s, i) == IBlkThen(s, i, t, RefAt(s, t + 1))
  {
  }

  lemma IBlkThenElse(s: string, i: nat, t: nat, f1: Ref)
    requires i + 6 < t && t + 1 < f1.end < |s| && s[f1.end] == ':'
    ensures IBlkThen(s, i, t, Some(f1)) == IBlkElse(s, i, t, f1, RefAt(s, f1.end + 1))
  {
  }

  /** An iblk tag whose two references were recognised ends right after the second
      reference's `/>`. */
  lemma IBlkMatchesRefs(s: string, i: nat, t: nat, m: nat, n: nat, test: string, thenId: string,
                        thenParams: Option<string>, elseId: string, elseParams: Option<string>)
    requires i + 6 < t < m && m + 1 < n && n + 2 <= |s| && s[i + 6..t] == test && StartsAt(s, n, "/>")
    ensures var f1, f2 := Ref(thenId, thenParams, m), Ref(elseId, elseParams, n);
            IBlkElse(s, i, t, f1, Some(f2)) == Some(Match(n + 2, IBlkC(test, thenId, thenParams, elseId, elseParams)))
  {
  }

  /** A reference written at `j` and followed by its parameter list, if any, and then the `/` of
      `/>` or the `:` that separates the two references of an iblk, is recognised in full. */
  lemma RefComplete(s: string, j: nat, id: string, params: Option<string>)
    requires IsTplId(id) && (params.Some? ==> IsPairList(params.value))
    requires j + |id| + |ParamsText(params)| < |s| && s[j..j + |id| + |ParamsText(params)|] == id + ParamsText(params)
    requires s[j + |id| + |ParamsText(params)|] == '/' || s[j + |id| + |ParamsText(params)|] == ':'
    ensures var r := RefAt(s, j);
            r.Some? && r.value.id == id && r.value.params == params
            && r.value.end == j + |id| + |ParamsText(params)|
  {
    var pt := ParamsText(params);
    var w := j + |id|;
    assert id + pt + "" == id + pt;
    SpanParts(s, j, w + |pt|, id, pt, "");
    StartsAtSlice(s, j, id);
    if params.Some? {
      var c := params.value;
      SpanParts(s, w, w + |pt|, "[", c, "]");
      assert s[w] == "["[0];
      assert s[w + 1 + |c|] == "]"[0];
      StartsAtSlice(s, w + 1, c);
      RefPresentComplete(s, j, id, c);
    } else {
      RefAbsentComplete(s, j, id);
    }
  }

  lemma RefAbsentComplete(s: string, j: nat, id: string)
    requires IsTplId(id) && j + |id| < |s| && s[j..j + |id|] == id
    requires s[j + |id|] == '/' || s[j + |id|] == ':'
    ensures var r := RefAt(s, j);
            r.Some? && r.value.id == id && r.value.params.None? && r.value.end == j + |id|
  {
    TplIdComplete(s, j, id);
  }

  lemma RefPresentComplete(s: string, j: nat, id: string, c: string)
    requires IsTplId(id) && IsPairList(c) && j + |id| + |c| + 2 <= |s| && s[j..j + |id|] == id
    requires s[j + |id|] == '[' && s[j + |id| + 1..j + |id| + 1 + |c|] == c && s[j + |id| + 1 + |c|] == ']'
    ensures var r := RefAt(s, j);
            r.Some? && r.value.id == id && r.value.params.Some? && r.value.params.value == c
            && r.value.end == j + |id| + |c| + 2
  {
    TplIdComplete(s, j, id);
    ParamsAtPresent(s, j + |id|, c);
    assert ParamsAt(s, j + |id|) == Present(c, j + |id| + |c| + 2);
    assert RefAt(s, j) == Some(Ref(s[j..j + |id|], Some(c), j + |id| + |c| + 2));
  }

  // ---------------------------------------------------------------- anchors

  /** RE_ANCHOR: `delim \h+ delim` (`$$` in token.rb, `@@` in parsernext.rb); the end of
      the match at `i`. */
  function MatchAnchor(s: string, i: nat, delim: string): (r: Option<nat>)
    ensures r.Some? ==> i < r.value <= |s|
  {
    if |delim| == 0 || !StartsAt(s, i, delim) then None
    else
      var h := HexEnd(s, i + |delim|);
      if h > i + |delim| && StartsAt(s, h, delim) then Some(h + |delim|) else None
  }

  function HexEnd(s: string, i: nat): (j: nat)
    requires i <= |s|
    ensures i <= j <= |s|
    ensures forall k {:trigger IsHexChar(s[k])} :: i <= k < j ==> IsHexChar(s[k])
    ensures j < |s| ==> !IsHexChar(s[j])
    decreases |s| - i
  {
    if i == |s| || !IsHexChar(s[i]) then i else HexEnd(s, i + 1)
  }

  lemma {:induction false} HexEndAt(s: string, i: nat, j: nat)
    requires i <= j <= |s|
    requires forall k {:trigger IsHexChar(s[k])} :: i <= k < j ==> IsHexChar(s[k])
    requires j < |s| ==> !IsHexChar(s[j])
    ensures HexEnd(s, i) == j
    decreases j - i
  {
    if i < j {
      HexEndAt(s, i + 1, j);
    }
  }

  /** A delimiter whose first character is not a hex digit. */
  predicate IsDelim(delim: string) {
    |delim| > 0 && !IsHexChar(delim[0])
  }

  /** Any `delim hex delim` written at `i` is an anchor match ending after it. */
  lemma AnchorComplete(s: string, i: nat, delim: string, h: string)
    requires IsDelim(delim) && IsHex(h) && StartsAt(s, i, delim + h + delim)
    ensures MatchAnchor(s, i, delim) == Some(i + |h| + 2 * |delim|)
  {
    var e := i + |h| + 2 * |delim|;
    SpanParts(s, i, e, delim, h, delim);
    var a := i + |delim|;
    forall k | a <= k < a + |h| ensures IsHexChar(s[k]) {
      assert s[k] == s[a..a + |h|][k - a] == h[k - a];
    }
    assert s[a + |h|] == s[a + |h|..e][0] == delim[0];
    HexEndAt(s, a, a + |h|);
  }

  /** An anchor match spans `delim`, hex digits, `delim`. */
  lemma AnchorSound(s: string, i: nat, delim: string)
    requires MatchAnchor(s, i, delim).Some?
    ensures var e := MatchAnchor(s, i, delim).value;
            e >= i + 2 * |delim| && IsHex(s[i + |delim|..e - |delim|])
            && s[i..e] == delim + s[i + |delim|..e - |delim|] + delim
  {
    var h := HexEnd(s, i + |delim|);
    var e := h + |delim|;
    var hs := s[i + |delim|..h];
    assert IsHex(hs) by {
      forall k | 0 <= k < |hs| ensures IsHexChar(hs[k]) {
        assert hs[k] == s[i + |delim| + k];
      }
    }
    SliceSplit(s, i, i + |delim|, h);
    SliceSplit(s, i, h, e);
  }
}
