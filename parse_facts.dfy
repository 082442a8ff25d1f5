/** What parse! guarantees about the token list it builds: the stage order, the tokens a
    non-bindable parser never makes, the object ids (and so the anchors) being distinct, each
    token's anchor standing in its stage's output, and loop and ife bodies going to child
    parsers of their own. */
module ParseFacts {
  import opened Wrappers
  import opened Strings
  import opened Syntax
  import opened TokenTree
  import opened Parse

  // ---------------------------------------------------------------- stage order

  predicate AllOf(ts: seq<Token>, st: Stage) {
    forall k :: 0 <= k < |ts| ==> StageOf(ts[k]) == st
  }

  /** The tokens are in stage order. */
  predicate StageSorted(ts: seq<Token>) {
    forall a, b :: 0 <= a < b < |ts| ==> Rank(StageOf(ts[a])) <= Rank(StageOf(ts[b]))
  }

  lemma AppendSorted(a: seq<Token>, b: seq<Token>, st: Stage)
    requires StageSorted(a) && AllOf(b, st)
    requires forall k :: 0 <= k < |a| ==> Rank(StageOf(a[k])) <= Rank(st)
    ensures StageSorted(a + b)
  {
  }

  /** Six stages' tokens, each list of its own stage, concatenated in stage order. */
  lemma StagesSorted(a1: seq<Token>, a2: seq<Token>, a3: seq<Token>, a4: seq<Token>, a5: seq<Token>, a6: seq<Token>)
    requires AllOf(a1, Statements) && AllOf(a2, Metas) && AllOf(a3, Vars)
    requires AllOf(a4, Urls) && AllOf(a5, Apis) && AllOf(a6, Templates)
    ensures StageSorted(a1 + a2 + a3 + a4 + a5 + a6)
  {
    AppendSorted(a1, a2, Metas);
    AppendSorted(a1 + a2, a3, Vars);
    AppendSorted(a1 + a2 + a3, a4, Urls);
    AppendSorted(a1 + a2 + a3 + a4, a5, Apis);
    AppendSorted(a1 + a2 + a3 + a4 + a5, a6, Templates);
  }

  /** Without the first three stages only url, api and template tokens remain. */
  lemma LateStages(a1: seq<Token>, a2: seq<Token>, a3: seq<Token>, a4: seq<Token>, a5: seq<Token>, a6: seq<Token>)
    requires a1 == [] && a2 == [] && a3 == []
    requires AllOf(a4, Urls) && AllOf(a5, Apis) && AllOf(a6, Templates)
    ensures forall k :: 0 <= k < |a1 + a2 + a3 + a4 + a5 + a6| ==> Rank(StageOf((a1 + a2 + a3 + a4 + a5 + a6)[k])) >= 3
  {
    assert a1 + a2 + a3 + a4 + a5 + a6 == a4 + a5 + a6;
  }

  /** parse! leaves the tokens in stage order (statements, meta, var, url, api, templates), and
      a parser that is not bindable makes no loop, ife, meta or var token. */
  lemma ParseOrder(env: Env, bindable: bool, t: string, first: nat)
    ensures StageSorted(ParseText(env, bindable, t, first).0.tokens)
    ensures !bindable ==> forall k :: 0 <= k < |ParseText(env, bindable, t, first).0.tokens| ==>
              Rank(StageOf(ParseText(env, bindable, t, first).0.tokens[k])) >= 3
  {
    var fl := FlagsScan(t, 0);
    var o1 := if bindable then StmtScan(env, fl.0, 0, first) else Out(fl.0, [], [], first);
    var o2 := if bindable then Scan(env, Metas, o1.text, 0, o1.next) else Out(o1.text, [], [], o1.next);
    var o3 := if bindable then Scan(env, Vars, o2.text, 0, o2.next) else Out(o2.text, [], [], o2.next);
    var o4 := Scan(env, Urls, o3.text, 0, o3.next);
    var o5 := Scan(env, Apis, o4.text, 0, o4.next);
    var o6 := Scan(env, Templates, o5.text, 0, o5.next);
    var ts := ParseText(env, bindable, t, first).0.tokens;
    assert ts == o1.tokens + o2.tokens + o3.tokens + o4.tokens + o5.tokens + o6.tokens;
    StagesSorted(o1.tokens, o2.tokens, o3.tokens, o4.tokens, o5.tokens, o6.tokens);
    if !bindable {
      LateStages(o1.tokens, o2.tokens, o3.tokens, o4.tokens, o5.tokens, o6.tokens);
    }
  }

  // ---------------------------------------------------------------- object ids

  lemma RangeSplit(x: seq<nat>, y: seq<nat>, a: nat, b: nat)
    requires a <= b && x + y == Range(a, b)
    ensures x == Range(a, a + |x|) && y == Range(a + |x|, b)
  {
    assert forall k :: 0 <= k < |x| ==> x[k] == (x + y)[k];
    assert forall k :: 0 <= k < |y| ==> y[k] == (x + y)[|x| + k];
  }

  lemma TokenOidsHead(t: Token)
    ensures |TokenOids(t)| >= 1 && TokenOids(t)[0] == t.oid
  {
  }

  /** When a token list's ids are a range, the tokens' own ids strictly increase. */
  lemma {:induction false} LevelIncreasing(ts: seq<Token>, a: nat, b: nat)
    requires a <= b && TreeOids(ts) == Range(a, b)
    ensures forall i, j :: 0 <= i < j < |ts| ==> a <= ts[i].oid < ts[j].oid < b
    ensures forall i :: 0 <= i < |ts| ==> a <= ts[i].oid < b
    decreases |ts|
  {
    if ts != [] {
      var head := TokenOids(ts[0]);
      var tail := TreeOids(ts[1..]);
      assert TreeOids(ts) == head + tail;
      RangeSplit(head, tail, a, b);
      TokenOidsHead(ts[0]);
      assert head[0] == a;
      LevelIncreasing(ts[1..], a + |head|, b);
      forall i | 0 <= i < |ts| ensures a <= ts[i].oid < b {
        if i > 0 {
          assert ts[i] == ts[1..][i - 1];
        }
      }
      forall i, j | 0 <= i < j < |ts| ensures a <= ts[i].oid < ts[j].oid < b {
        assert ts[j] == ts[1..][j - 1];
        if i > 0 {
          assert ts[i] == ts[1..][i - 1];
        }
      }
    }
  }

  /** The anchors of the tokens of one parser are pairwise distinct, so every anchor names one
      token. */
  lemma ParseAnchorsDistinct(env: Env, bindable: bool, t: string, first: nat)
    ensures var ts := ParseText(env, bindable, t, first).0.tokens;
            forall i, j :: 0 <= i < j < |ts| ==> Anchor(env.fam, ts[i].oid) != Anchor(env.fam, ts[j].oid)
  {
    var r := ParseText(env, bindable, t, first);
    LevelIncreasing(r.0.tokens, first, r.1);
    forall i, j | 0 <= i < j < |r.0.tokens|
      ensures Anchor(env.fam, r.0.tokens[i].oid) != Anchor(env.fam, r.0.tokens[j].oid)
    {
      if Anchor(env.fam, r.0.tokens[i].oid) == Anchor(env.fam, r.0.tokens[j].oid) {
        AnchorInjective(env.fam, r.0.tokens[i].oid, r.0.tokens[j].oid);
      }
    }
  }

  // ---------------------------------------------------------------- anchors in the text

  lemma ScanKeep(env: Env, st: Stage, s: string, i: nat, oid: nat)
    requires st != Statements && i < |s| && Recognise(st, s, i).None?
    ensures var r, rest := Scan(env, st, s, i, oid), Scan(env, st, s, i + 1, oid);
            r.text == [s[i]] + rest.text && r.tokens == rest.tokens
  {
  }

  lemma ScanTake(env: Env, st: Stage, s: string, i: nat, oid: nat)
    requires st != Statements && i < |s| && Recognise(st, s, i).Some?
    ensures var m := Recognise(st, s, i).value;
            var t := Instance(env, TagOf(m.c), m.c, oid, []).value;
            var r, rest := Scan(env, st, s, i, oid), Scan(env, st, s, m.end, oid + 1);
            r.text == Anchor(env.fam, t.oid) + rest.text && r.tokens == [t] + rest.tokens
  {
  }

  lemma StmtKeep(env: Env, s: string, i: nat, oid: nat)
    requires i < |s| && Recognise(Statements, s, i).None?
    ensures var r, rest := StmtScan(env, s, i, oid), StmtScan(env, s, i + 1, oid);
            r.text == [s[i]] + rest.text && r.tokens == rest.tokens
  {
  }

  /** One statement: its span leaves only the anchor of its token, and the outer scan goes on
      after the span, with the ids after those of the bodies. */
  lemma StmtTake(env: Env, s: string, i: nat, oid: nat)
    requires i < |s| && Recognise(Statements, s, i).Some?
    ensures var m := Recognise(Statements, s, i).value;
            var kids := ParseBodies(env, Bodies(m.c), oid + 1, |s|);
            var t := Instance(env, TagOf(m.c), m.c, oid, kids.0).value;
            var r, rest := StmtScan(env, s, i, oid), StmtScan(env, s, m.end, kids.1);
            r.text == Anchor(env.fam, t.oid) + rest.text && r.tokens == [t] + rest.tokens
  {
  }

  /** A loop or ife token holds its bodies as parsed by fresh bindable parsers: the then-body
      numbered right after the token, the else-body after the then-body. */
  lemma StatementBodies(env: Env, c: Construct, oid: nat, bound: nat)
    requires (c.LoopC? || c.IfeC?) && forall k :: 0 <= k < |Bodies(c)| ==> |Bodies(c)[k]| < bound
    ensures var t := Instance(env, TagOf(c), c, oid, ParseBodies(env, Bodies(c), oid + 1, bound).0).value;
            && t.oid == oid && (t.Loop? <==> c.LoopC?) && (t.Ife? <==> c.IfeC?)
            && (t.Loop? ==> t.body == ParseText(env, true, c.body, oid + 1).0)
            && (t.Ife? ==> t.thenP == ParseText(env, true, c.thenBody, oid + 1).0)
            && (t.Ife? ==> (t.elseP.Some? <==> c.elseBody.Some?))
            && (t.Ife? && c.elseBody.Some? ==>
                  var first := ParseText(env, true, c.thenBody, oid + 1);
                  t.elseP == Some(ParseText(env, true, c.elseBody.value, first.1).0))
  {
    var bodies := Bodies(c);
    var kids := ParseBodies(env, bodies, oid + 1, bound);
    var first := ParseText(env, true, bodies[0], oid + 1);
    var more := ParseBodies(env, bodies[1..], first.1, bound);
    assert kids.0 == [first.0] + more.0;
    if |bodies| == 2 {
      assert more.0[0] == ParseText(env, true, bodies[1..][0], first.1).0;
    }
  }
}
