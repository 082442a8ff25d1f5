/** ParserNext#parse! as a function of the text (lib/tzispa/rig/parsernext.rb): the
    specification the imperative parser is proved against. Every stage is one `gsub!`:
    scanning left to right, a construct recognised at the current position is replaced by
    the anchor of a new token and the scan goes on after it; any other character is kept.
    Object ids are handed out by a counter, a token before the tokens of its bodies. Ruby
    gives out `object_id`s lazily, on first use, so the order is not Ruby's; what the model
    relies on, and what Ruby guarantees, is only that the ids are distinct. */
module Parse {
  import opened Wrappers
  import opened Strings
  import opened Syntax
  import opened TokenTree

  /** The `gsub!` stages after the flags, in the order parse! runs them. */
  datatype Stage = Statements | Metas | Vars | Urls | Apis | Templates

  function Rank(st: Stage): nat {
    match st
    case Statements => 0
    case Metas => 1
    case Vars => 2
    case Urls => 3
    case Apis => 4
    case Templates => 5
  }

  /** The stage that creates a token of this variant. */
  function StageOf(t: Token): Stage {
    match t
    case Loop(_, _, _) => Statements
    case Ife(_, _, _, _) => Statements
    case Meta(_, _) => Metas
    case Var(_, _, _) => Vars
    case Url(_, _, _, _, _) => Urls
    case Api(_, _, _, _, _, _, _) => Apis
    case _ => Templates
  }

  /** The pattern a stage scans for. */
  function Recognise(st: Stage, s: string, i: nat): (r: Option<Match>)
    ensures Fits(s, i, r)
    ensures r.Some? && st == Statements ==> Nests(i, r.value)
    ensures r.Some? && st != Statements ==> Bodies(r.value.c) == []
    ensures r.Some? && st == Metas ==> r.value.c.MetaC?
    ensures r.Some? && st == Vars ==> r.value.c.VarC?
    ensures r.Some? && st == Urls ==> r.value.c.UrlC?
    ensures r.Some? && st == Apis ==> r.value.c.ApiC?
    ensures r.Some? && st == Templates ==> r.value.c.BlkC? || r.value.c.IBlkC? || r.value.c.StaticC?
  {
    match st
    case Statements => MatchStatement(s, i)
    case Metas => MatchMeta(s, i)
    case Vars => MatchVar(s, i)
    case Urls => MatchUrl(s, i)
    case Apis => MatchApi(s, i)
    case Templates => MatchTemplate(s, i)
  }

  /** The token made of what a stage recognises belongs to that stage. */
  lemma InstanceStage(env: Env, st: Stage, s: string, i: nat, oid: nat, kids: seq<Parsed>)
    requires Recognise(st, s, i).Some? && |kids| == |Bodies(Recognise(st, s, i).value.c)|
    ensures var c := Recognise(st, s, i).value.c;
            Instance(env, TagOf(c), c, oid, kids).Some?
            && StageOf(Instance(env, TagOf(c), c, oid, kids).value) == st
            && Instance(env, TagOf(c), c, oid, kids).value.oid == oid
  {
  }

  // ---------------------------------------------------------------- object ids

  /** The integers `a, a + 1, ..., b - 1`. */
  function Range(a: nat, b: nat): (r: seq<nat>)
    requires a <= b
    ensures |r| == b - a && forall k :: 0 <= k < |r| ==> r[k] == a + k
    decreases b - a
  {
    if a == b then [] else [a] + Range(a + 1, b)
  }

  /** The object ids of a token list and of everything its child parsers made, in the order
      they were handed out (a token before its bodies). */
  function TreeOids(ts: seq<Token>): seq<nat>
    decreases ts, 1
  {
    if ts == [] then [] else TokenOids(ts[0]) + TreeOids(ts[1..])
  }

  function TokenOids(t: Token): seq<nat>
    decreases t
  {
    match t
    case Loop(oid, _, body) => [oid] + TreeOids(body.tokens)
    case Ife(oid, _, tp, ep) => [oid] + TreeOids(tp.tokens) + (if ep.Some? then TreeOids(ep.value.tokens) else [])
    case _ => [t.oid]
  }

  function KidsOids(kids: seq<Parsed>): seq<nat> {
    if kids == [] then [] else TreeOids(kids[0].tokens) + KidsOids(kids[1..])
  }

  lemma {:induction false} TreeOidsAppend(a: seq<Token>, b: seq<Token>)
    ensures TreeOids(a + b) == TreeOids(a) + TreeOids(b)
    decreases |a|
  {
    if a != [] {
      assert (a + b)[0] == a[0];
      assert (a + b)[1..] == a[1..] + b;
      TreeOidsAppend(a[1..], b);
    } else {
      assert a + b == b;
    }
  }

  lemma TreeOidsCons(t: Token, ts: seq<Token>)
    ensures TreeOids([t] + ts) == TokenOids(t) + TreeOids(ts)
  {
    assert ([t] + ts)[0] == t && ([t] + ts)[1..] == ts;
  }

  lemma RangeAppend(a: nat, b: nat, c: nat)
    requires a <= b <= c
    ensures Range(a, b) + Range(b, c) == Range(a, c)
  {
    assert forall k :: 0 <= k < c - a ==> (Range(a, b) + Range(b, c))[k] == a + k;
  }

  /** A token's own id followed by two adjacent ranges. */
  lemma RangeCons(a: nat, x: seq<nat>, y: seq<nat>, n: nat, m: nat)
    requires a + 1 <= n <= m && x == Range(a + 1, n) && y == Range(n, m)
    ensures [a] + x + y == Range(a, m)
  {
    RangeAppend(a + 1, n, m);
    assert [a] + x + y == [a] + (x + y);
  }

  /** A statement token's ids are its own followed by its bodies' ids. */
  lemma TokenKidsOids(env: Env, c: Construct, oid: nat, kids: seq<Parsed>)
    requires (c.LoopC? || c.IfeC?) && |kids| == |Bodies(c)| && Instance(env, TagOf(c), c, oid, kids).Some?
    ensures TokenOids(Instance(env, TagOf(c), c, oid, kids).value) == [oid] + KidsOids(kids)
  {
    var t := Instance(env, TagOf(c), c, oid, kids).value;
    if c.LoopC? {
      assert t == Loop(oid, c.id, kids[0]);
      assert kids[1..] == [];
      assert KidsOids(kids) == TreeOids(kids[0].tokens);
    } else if c.elseBody.Some? {
      assert t == Ife(oid, c.test, kids[0], Some(kids[1]));
      IfeOids(oid, kids);
    } else {
      assert t == Ife(oid, c.test, kids[0], None);
      assert kids[1..] == [];
      assert KidsOids(kids) == TreeOids(kids[0].tokens);
    }
  }

  lemma IfeOids(oid: nat, kids: seq<Parsed>)
    requires |kids| == 2
    ensures [oid] + TreeOids(kids[0].tokens) + TreeOids(kids[1].tokens) == [oid] + KidsOids(kids)
  {
    assert kids[1..][0] == kids[1] && kids[1..][1..] == [];
    assert KidsOids(kids[1..]) == TreeOids(kids[1].tokens);
    assert KidsOids(kids) == TreeOids(kids[0].tokens) + TreeOids(kids[1].tokens);
  }

  // ---------------------------------------------------------------- anchors in the text

  lemma OccursAfter(s: string, pre: string, lit: string)
    requires Occurs(s, lit)
    ensures Occurs(pre + s, lit)
  {
    var k: nat :| k <= |s| && StartsAt(s, k, lit);
    assert StartsAt(pre + s, |pre| + k, lit) by {
      forall j | 0 <= j < |lit| ensures (pre + s)[|pre| + k + j] == lit[j] {
        assert s[k + j] == lit[j];
      }
    }
  }

  lemma OccursFront(a: string, rest: string)
    ensures Occurs(a + rest, a)
  {
    assert StartsAt(a + rest, 0, a) by {
      forall j | 0 <= j < |a| ensures (a + rest)[j] == a[j] {
      }
    }
  }

  /** Every token of `ts` has its anchor somewhere in `text`. */
  predicate AnchorsIn(fam: Family, text: string, ts: seq<Token>)
    decreases |ts|
  {
    |ts| == 0 || (Occurs(text, Anchor(fam, ts[0].oid)) && AnchorsIn(fam, text, ts[1..]))
  }

  lemma {:induction false} AnchorAt(fam: Family, text: string, ts: seq<Token>, k: nat)
    requires AnchorsIn(fam, text, ts) && k < |ts|
    ensures Occurs(text, Anchor(fam, ts[k].oid))
    decreases k
  {
    if k > 0 {
      AnchorAt(fam, text, ts[1..], k - 1);
    }
  }

  lemma {:induction false} AnchorsAfter(fam: Family, pre: string, text: string, ts: seq<Token>)
    requires AnchorsIn(fam, text, ts)
    ensures AnchorsIn(fam, pre + text, ts)
    decreases |ts|
  {
    if |ts| > 0 {
      OccursAfter(text, pre, Anchor(fam, ts[0].oid));
      AnchorsAfter(fam, pre, text, ts[1..]);
    }
  }

  /** A new token whose anchor heads the text, in front of tokens whose anchors follow. */
  lemma AnchorsCons(fam: Family, t: Token, text: string, ts: seq<Token>)
    requires AnchorsIn(fam, text, ts)
    ensures AnchorsIn(fam, Anchor(fam, t.oid) + text, [t] + ts)
  {
    var a := Anchor(fam, t.oid);
    AnchorsAfter(fam, a, text, ts);
    OccursFront(a, text);
    assert ([t] + ts)[0] == t && ([t] + ts)[1..] == ts;
  }

  // ---------------------------------------------------------------- the stages

  /** What a stage leaves: the new text, the tokens it appended to `the_parsed`, what their
      `parse!` appended to `childrens`, and the next free object id. */
  datatype Out = Out(text: string, tokens: seq<Token>, children: seq<BlockRef>, next: nat)

  /** parse_flags: every flags group removed from `s[i..]`; the list of the last one. */
  function FlagsScan(s: string, i: nat): (r: (string, Option<string>))
    requires i <= |s|
    ensures |r.0| <= |s| - i
    decreases |s| - i
  {
    if i == |s| then ([], None)
    else
      match MatchFlags(s, i)
      case Some(m) =>
        var rest := FlagsScan(s, m.end);
        (rest.0, if rest.1.Some? then rest.1 else Some(m.list))
      case None =>
        var rest := FlagsScan(s, i + 1);
        ([s[i]] + rest.0, rest.1)
  }

  /** One of parse_expressions' or parse_url_builder's `gsub!`, or parse_templates', over
      `s[i..]`, handing out object ids from `oid`. These constructs have no bodies. */
  function Scan(env: Env, st: Stage, s: string, i: nat, oid: nat): (r: Out)
    requires st != Statements && i <= |s|
    ensures r.next == oid + |r.tokens|
    ensures forall k :: 0 <= k < |r.tokens| ==> StageOf(r.tokens[k]) == st && r.tokens[k].oid == oid + k
    ensures TreeOids(r.tokens) == Range(oid, r.next)
    ensures AnchorsIn(env.fam, r.text, r.tokens)
    decreases |s| - i
  {
    if i == |s| then Out([], [], [], oid)
    else
      match Recognise(st, s, i)
      case None =>
        var rest := Scan(env, st, s, i + 1, oid);
        AnchorsAfter(env.fam, [s[i]], rest.text, rest.tokens);
        Out([s[i]] + rest.text, rest.tokens, rest.children, rest.next)
      case Some(m) =>
        InstanceStage(env, st, s, i, oid, []);
        var t := Instance(env, TagOf(m.c), m.c, oid, []).value;
        var rest := Scan(env, st, s, m.end, oid + 1);
        TreeOidsCons(t, rest.tokens);
        AnchorsCons(env.fam, t, rest.text, rest.tokens);
        Out(Anchor(env.fam, oid) + rest.text, [t] + rest.tokens, ChildrenOf(t) + rest.children, rest.next)
  }

  /** parse_statements' `gsub!` over `s[i..]`: a loop or ife token is made after its bodies
      are parsed, by bindable child parsers, with the ids after its own. */
  function StmtScan(env: Env, s: string, i: nat, oid: nat): (r: Out)
    requires i <= |s|
    ensures oid <= r.next
    ensures forall k :: 0 <= k < |r.tokens| ==> StageOf(r.tokens[k]) == Statements
    ensures TreeOids(r.tokens) == Range(oid, r.next)
    ensures AnchorsIn(env.fam, r.text, r.tokens)
    decreases |s|, 1, |s| - i
  {
    if i == |s| then Out([], [], [], oid)
    else
      match Recognise(Statements, s, i)
      case None =>
        var rest := StmtScan(env, s, i + 1, oid);
        AnchorsAfter(env.fam, [s[i]], rest.text, rest.tokens);
        Out([s[i]] + rest.text, rest.tokens, rest.children, rest.next)
      case Some(m) =>
        var kids := ParseBodies(env, Bodies(m.c), oid + 1, |s|);
        InstanceStage(env, Statements, s, i, oid, kids.0);
        var t := Instance(env, TagOf(m.c), m.c, oid, kids.0).value;
        var rest := StmtScan(env, s, m.end, kids.1);
        TokenKidsOids(env, m.c, oid, kids.0);
        TreeOidsCons(t, rest.tokens);
        RangeCons(oid, KidsOids(kids.0), TreeOids(rest.tokens), kids.1, rest.next);
        AnchorsCons(env.fam, t, rest.text, rest.tokens);
        Out(Anchor(env.fam, oid) + rest.text, [t] + rest.tokens, ChildrenOf(t) + rest.children, rest.next)
  }

  /** The child parsers of one statement, each parsed in turn. */
  function ParseBodies(env: Env, bodies: seq<string>, oid: nat, bound: nat): (r: (seq<Parsed>, nat))
    requires forall k :: 0 <= k < |bodies| ==> |bodies[k]| < bound
    ensures |r.0| == |bodies| && oid <= r.1
    ensures KidsOids(r.0) == Range(oid, r.1)
    decreases bound, 0, |bodies|
  {
    if bodies == [] then ([], oid)
    else
      var first := ParseText(env, true, bodies[0], oid);
      var rest := ParseBodies(env, bodies[1..], first.1, bound);
      assert ([first.0] + rest.0)[1..] == rest.0;
      RangeAppend(oid, first.1, rest.1);
      ([first.0] + rest.0, rest.1)
  }

  /** ParserNext#parse! on a fresh parser over `t`, its tokens numbered from `first`: the
      parse and the next free object id. */
  function ParseText(env: Env, bindable: bool, t: string, first: nat): (r: (Parsed, nat))
    ensures first <= r.1
    ensures TreeOids(r.0.tokens) == Range(first, r.1)
    decreases |t|, 2
  {
    var fl := FlagsScan(t, 0);
    var o1 := if bindable then StmtScan(env, fl.0, 0, first) else Out(fl.0, [], [], first);
    var o2 := if bindable then Scan(env, Metas, o1.text, 0, o1.next) else Out(o1.text, [], [], o1.next);
    var o3 := if bindable then Scan(env, Vars, o2.text, 0, o2.next) else Out(o2.text, [], [], o2.next);
    var o4 := Scan(env, Urls, o3.text, 0, o3.next);
    var o5 := Scan(env, Apis, o4.text, 0, o4.next);
    var o6 := Scan(env, Templates, o5.text, 0, o5.next);
    TreeOidsAppend(o1.tokens, o2.tokens);
    TreeOidsAppend(o1.tokens + o2.tokens, o3.tokens);
    TreeOidsAppend(o1.tokens + o2.tokens + o3.tokens, o4.tokens);
    TreeOidsAppend(o1.tokens + o2.tokens + o3.tokens + o4.tokens, o5.tokens);
    TreeOidsAppend(o1.tokens + o2.tokens + o3.tokens + o4.tokens + o5.tokens, o6.tokens);
    RangeAppend(first, o1.next, o2.next);
    RangeAppend(first, o2.next, o3.next);
    RangeAppend(first, o3.next, o4.next);
    RangeAppend(first, o4.next, o5.next);
    RangeAppend(first, o5.next, o6.next);
    (Parsed(o6.text, o1.tokens + o2.tokens + o3.tokens + o4.tokens + o5.tokens + o6.tokens,
            o1.children + o2.children + o3.children + o4.children + o5.children + o6.children, fl.1),
     o6.next)
  }
}
