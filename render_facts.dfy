/** What rendering promises: every token is rendered and the first failure wins, a binding
    keeps plain text and turns an anchor into the rendering of its token, the per-token
    rules of Meta, Var, Loop, Ife and the inclusions, and the loop's concatenation. */
module RenderFacts {
  import opened Wrappers
  import opened Strings
  import opened Values
  import opened Syntax
  import opened TokenTree
  import opened Render
  import Params

  // ---------------------------------------------------------------- ParserNext#render

  /** Rendering succeeds exactly when every token from `k` on renders: a token whose anchor is
      no longer in the text is still rendered. */
  lemma {:induction false} RenderFromSucceeds(fam: Family, ctx: Context, p: Parsed, b: Value, text: string, k: nat, fuel: nat)
    requires k <= |p.tokens|
    ensures RenderFrom(fam, ctx, p, b, text, k, fuel).Success? <==>
            forall j :: k <= j < |p.tokens| ==> RenderToken(fam, ctx, p, j, b, fuel).Success?
    decreases |p.tokens| - k
  {
    if k < |p.tokens| {
      var v := RenderToken(fam, ctx, p, k, b, fuel);
      if v.Success? {
        var next := Replace(text, Anchor(fam, p.tokens[k].oid), v.value);
        assert RenderFrom(fam, ctx, p, b, text, k, fuel) == RenderFrom(fam, ctx, p, b, next, k + 1, fuel);
        RenderFromSucceeds(fam, ctx, p, b, next, k + 1, fuel);
        if forall j :: k <= j < |p.tokens| ==> RenderToken(fam, ctx, p, j, b, fuel).Success? {
          assert forall j :: k + 1 <= j < |p.tokens| ==> RenderToken(fam, ctx, p, j, b, fuel).Success?;
        }
      } else {
        RenderFromStops(fam, ctx, p, b, text, k, fuel);
      }
    }
  }

  lemma RenderFromStops(fam: Family, ctx: Context, p: Parsed, b: Value, text: string, k: nat, fuel: nat)
    requires k < |p.tokens| && RenderToken(fam, ctx, p, k, b, fuel).Failure?
    ensures RenderFrom(fam, ctx, p, b, text, k, fuel) == Failure(RenderToken(fam, ctx, p, k, b, fuel).error)
    ensures !forall j :: k <= j < |p.tokens| ==> RenderToken(fam, ctx, p, j, b, fuel).Success?
  {
  }

  /** A failed render reports the failure of the first token that fails. */
  lemma {:induction false} RenderFromFirstFailure(fam: Family, ctx: Context, p: Parsed, b: Value, text: string, k: nat, fuel: nat, j: nat)
    requires k <= j < |p.tokens|
    requires forall i :: k <= i < j ==> RenderToken(fam, ctx, p, i, b, fuel).Success?
    requires RenderToken(fam, ctx, p, j, b, fuel).Failure?
    ensures RenderFrom(fam, ctx, p, b, text, k, fuel) == Failure(RenderToken(fam, ctx, p, j, b, fuel).error)
    decreases j - k
  {
    var v := RenderToken(fam, ctx, p, k, b, fuel);
    if k < j {
      RenderFromFirstFailure(fam, ctx, p, b, Replace(text, Anchor(fam, p.tokens[k].oid), v.value), k + 1, fuel, j);
    }
  }

  /** With every rendering in `vs`, rendering from `k` leaves the text with each later token's
      anchor replaced, in list order, by its rendering. */
  function ReplaceAll(fam: Family, text: string, ts: seq<Token>, vs: seq<string>): string
    requires |vs| == |ts|
    decreases |ts|
  {
    if ts == [] then text else ReplaceAll(fam, Replace(text, Anchor(fam, ts[0].oid), vs[0]), ts[1..], vs[1..])
  }

  lemma {:induction false} RenderFromReplaces(fam: Family, ctx: Context, p: Parsed, b: Value, text: string, k: nat, fuel: nat, vs: seq<string>)
    requires k <= |p.tokens| && |vs| == |p.tokens| - k
    requires forall j :: k <= j < |p.tokens| ==> RenderToken(fam, ctx, p, j, b, fuel) == Success(vs[j - k])
    ensures RenderFrom(fam, ctx, p, b, text, k, fuel) == Success(ReplaceAll(fam, text, p.tokens[k..], vs))
    decreases |p.tokens| - k
  {
    if k < |p.tokens| {
      var next := Replace(text, Anchor(fam, p.tokens[k].oid), vs[0]);
      RenderFromReplaces(fam, ctx, p, b, next, k + 1, fuel, vs[1..]);
      assert p.tokens[k..][1..] == p.tokens[k + 1..];
    } else {
      assert p.tokens[k..] == [];
    }
  }

  /** A parser without tokens renders as its text. */
  lemma RenderNoTokens(fam: Family, ctx: Context, p: Parsed, b: Value, fuel: nat)
    requires p.tokens == []
    ensures RenderParsed(fam, ctx, p, b, fuel) == Success(p.text)
  {
  }

  // ---------------------------------------------------------------- bind_value

  /** A string without an anchor is bound to itself. */
  lemma {:induction false} BindValuePlain(fam: Family, ctx: Context, p: Parsed, s: string, i: nat, b: Value, fuel: nat)
    requires i <= |s|
    requires forall j :: i <= j < |s| ==> MatchAnchor(s, j, Delim(fam)).None?
    ensures BindValue(fam, ctx, p, s, i, b, fuel) == Success(s[i..])
    decreases |s| - i
  {
    if i == |s| {
      assert s[i..] == "";
    } else {
      var rest := BindValue(fam, ctx, p, s, i + 1, b, fuel);
      assert rest == Success(s[i + 1..]) by {
        BindValuePlain(fam, ctx, p, s, i + 1, b, fuel);
      }
      assert MatchAnchor(s, i, Delim(fam)).None?;
      assert BindValue(fam, ctx, p, s, i, b, fuel) == Cat(Success([s[i]]), rest);
      assert Cat(Success([s[i]]), rest) == Success([s[i]] + s[i + 1..]);
      assert s[i..] == [s[i]] + s[i + 1..];
    }
  }

  /** With distinct anchors, the first token carrying a token's anchor is that token. */
  lemma FirstWithDistinct(fam: Family, ts: seq<Token>, k: nat)
    requires k < |ts|
    requires forall i, j :: 0 <= i < j < |ts| ==> Anchor(fam, ts[i].oid) != Anchor(fam, ts[j].oid)
    ensures FirstWithAnchor(fam, ts, Anchor(fam, ts[k].oid), 0) == Some(k)
  {
  }

  /** An anchor of a token of the parser, when the anchors are distinct, is bound to that
      token's rendering, one level of binding deeper. */
  lemma BindValueAnchor(fam: Family, ctx: Context, p: Parsed, k: nat, b: Value, fuel: nat)
    requires k < |p.tokens| && fuel > 0
    requires forall i, j :: 0 <= i < j < |p.tokens| ==> Anchor(fam, p.tokens[i].oid) != Anchor(fam, p.tokens[j].oid)
    ensures BindValue(fam, ctx, p, Anchor(fam, p.tokens[k].oid), 0, b, fuel) == RenderToken(fam, ctx, p, k, b, fuel - 1)
  {
    AnchorMatches(fam, p.tokens[k].oid);
    FirstWithDistinct(fam, p.tokens, k);
    BindValueWhole(fam, ctx, p, Anchor(fam, p.tokens[k].oid), k, b, fuel);
  }

  /** A string that is one anchor, first carried by token `k`, binds to that token's rendering. */
  lemma BindValueWhole(fam: Family, ctx: Context, p: Parsed, s: string, k: nat, b: Value, fuel: nat)
    requires k < |p.tokens| && fuel > 0
    requires MatchAnchor(s, 0, Delim(fam)) == Some(|s|) && FirstWithAnchor(fam, p.tokens, s, 0) == Some(k)
    ensures BindValue(fam, ctx, p, s, 0, b, fuel) == RenderToken(fam, ctx, p, k, b, fuel - 1)
  {
    assert s[0..|s|] == s;
    var v := RenderToken(fam, ctx, p, k, b, fuel - 1);
    assert BindValue(fam, ctx, p, s, |s|, b, fuel) == Success("");
    assert BindValue(fam, ctx, p, s, 0, b, fuel) == Cat(v, Success(""));
    assert v.Success? ==> v.value + "" == v.value;
  }

  /** An anchor no token of the parser carries makes the binding call `render` on nil. */
  lemma BindValueStrayAnchor(fam: Family, ctx: Context, p: Parsed, s: string, b: Value, fuel: nat)
    requires MatchAnchor(s, 0, Delim(fam)) == Some(|s|)
    requires forall j :: 0 <= j < |p.tokens| ==> Anchor(fam, p.tokens[j].oid) != s
    ensures BindValue(fam, ctx, p, s, 0, b, fuel) == Failure(NoMethod("render"))
  {
    assert s[0..|s|] == s;
  }

  // ---------------------------------------------------------------- Meta and Var

  /** Meta#render: the value's `to_s` when the binder's data answers the id, the placeholder
      otherwise; a binder without `data` raises. */
  lemma MetaRender(fam: Family, ctx: Context, p: Parsed, k: nat, b: Value, fuel: nat)
    requires k < |p.tokens| && p.tokens[k].Meta?
    ensures var r, id := RenderToken(fam, ctx, p, k, b, fuel), p.tokens[k].id;
            && (DataOf(b).None? ==> r == Failure(NoMethod("data")))
            && (DataOf(b).Some? && id in DataOf(b).value ==>
                  (r.Success? <==> ToS(DataOf(b).value[id]).Some?)
                  && (r.Success? ==> r.value == ToS(DataOf(b).value[id]).value))
            && (DataOf(b).Some? && id !in DataOf(b).value ==> r == Success(Placeholder(fam, id)))
  {
  }

  /** Var#render: a present value is shown escaped by the context's escape method in the
      token classes, or as it is when escaping raises, and unescaped in parsernext.rb; an
      absent id shows the unescaped placeholder. */
  lemma VarRender(fam: Family, ctx: Context, p: Parsed, k: nat, b: Value, fuel: nat)
    requires k < |p.tokens| && p.tokens[k].Var?
    ensures var r, id := RenderToken(fam, ctx, p, k, b, fuel), p.tokens[k].id;
            && (DataOf(b).None? ==> r == Failure(NoMethod("data")))
            && (DataOf(b).Some? && id !in DataOf(b).value ==> r == Success(Placeholder(fam, id)))
            && (DataOf(b).Some? && id in DataOf(b).value && ToS(DataOf(b).value[id]).Some? ==>
                  var v := ToS(DataOf(b).value[id]).value;
                  && (fam == ParsedEntities ==> r == Success(v))
                  && (fam == TokenClasses && ctx.escape(v).None? ==> r == Success(v))
                  && (fam == TokenClasses && ctx.escape(v).Some? ==> r == Success(ctx.escape(v).value)))
  {
  }

  // ---------------------------------------------------------------- Loop

  /** Loop#render over a loop binder: the body rendered per truthy item, in order. A nil
      looper renders nothing; a false one renders nothing in parsernext.rb and raises in
      the token classes. */
  lemma LoopRender(fam: Family, ctx: Context, p: Parsed, k: nat, b: Value, fuel: nat)
    requires k < |p.tokens| && p.tokens[k].Loop? && DataOf(b).Some?
    ensures var t, r := p.tokens[k], RenderToken(fam, ctx, p, k, b, fuel);
            var looper := Lookup(DataOf(b).value, t.id);
            && (looper.Looper? ==> r == RenderItems(fam, ctx, t.body, looper.items, fuel))
            && (looper.Nil? ==> r == Success(""))
            && (looper == Bool(false) && fam == ParsedEntities ==> r == Success(""))
            && (looper == Bool(false) && fam == TokenClasses ==> r == Failure(NoMethod("data")))
  {
  }

  /** The loop's rendering of a list of items is that of its first part followed by that of
      the rest. */
  lemma {:induction false} RenderItemsAppend(fam: Family, ctx: Context, body: Parsed, xs: seq<Value>, ys: seq<Value>, fuel: nat)
    ensures RenderItems(fam, ctx, body, xs + ys, fuel) ==
            Cat(RenderItems(fam, ctx, body, xs, fuel), RenderItems(fam, ctx, body, ys, fuel))
    decreases |xs|
  {
    if xs == [] {
      assert xs + ys == ys;
      var r := RenderItems(fam, ctx, body, ys, fuel);
      assert r.Success? ==> "" + r.value == r.value;
    } else {
      var head := if Truthy(xs[0]) then RenderParsed(fam, ctx, body, xs[0], fuel) else Success("");
      assert (xs + ys)[0] == xs[0] && (xs + ys)[1..] == xs[1..] + ys;
      RenderItemsAppend(fam, ctx, body, xs[1..], ys, fuel);
      CatAssoc(head, RenderItems(fam, ctx, body, xs[1..], fuel), RenderItems(fam, ctx, body, ys, fuel));
    }
  }

  /** Items that are nil or false are skipped. */
  lemma {:induction false} RenderItemsFalsy(fam: Family, ctx: Context, body: Parsed, items: seq<Value>, fuel: nat)
    requires forall j :: 0 <= j < |items| ==> !Truthy(items[j])
    ensures RenderItems(fam, ctx, body, items, fuel) == Success("")
    decreases |items|
  {
    if items != [] {
      RenderItemsFalsy(fam, ctx, body, items[1..], fuel);
    }
  }

  /** One truthy item renders the body once with the item as binder. */
  lemma RenderItemsOne(fam: Family, ctx: Context, body: Parsed, item: Value, fuel: nat)
    requires Truthy(item)
    ensures RenderItems(fam, ctx, body, [item], fuel) == RenderParsed(fam, ctx, body, item, fuel)
  {
    var r := RenderParsed(fam, ctx, body, item, fuel);
    assert r.Success? ==> r.value + "" == r.value;
  }

  // ---------------------------------------------------------------- Ife and the inclusions

  /** Ife#render: the then-parser when the test is present and truthy, otherwise the
      else-parser, or nothing without one. */
  lemma IfeRender(fam: Family, ctx: Context, p: Parsed, k: nat, b: Value, fuel: nat)
    requires k < |p.tokens| && p.tokens[k].Ife? && DataOf(b).Some?
    ensures var t, r := p.tokens[k], RenderToken(fam, ctx, p, k, b, fuel);
            var test := Truthy(Lookup(DataOf(b).value, t.test));
            && (test ==> r == RenderParsed(fam, ctx, t.thenP, b, fuel))
            && (!test && t.elseP.Some? ==> r == RenderParsed(fam, ctx, t.elseP.value, b, fuel))
            && (!test && t.elseP.None? ==> r == Success(""))
  {
  }

  /** Blk and Static bind their parameters, set them on the template copy, and render the
      copy against `binder.context`; the first of these steps to raise decides the failure. */
  lemma BlockRender(fam: Family, ctx: Context, p: Parsed, k: nat, b: Value, fuel: nat)
    requires k < |p.tokens| && (p.tokens[k].Blk? || p.tokens[k].Static?)
    ensures var t, r := p.tokens[k], RenderToken(fam, ctx, p, k, b, fuel);
            && (t.params.None? && HasContext(b) ==> r == Success(ctx.embed(t.block, None)))
            && (t.params.None? && !HasContext(b) ==> r == Failure(NoMethod("context")))
            && (t.params.Some? ==>
                  var bound := BindValue(fam, ctx, p, t.params.value, 0, b, fuel);
                  && (bound.Failure? ==> r == Failure(bound.error))
                  && (bound.Success? && Params.ParamsError(Some(bound.value)).Some? ==>
                        r == Failure(Params.ParamsError(Some(bound.value)).value))
                  && (bound.Success? && Params.ParamsError(Some(bound.value)).None? && HasContext(b) ==>
                        r == Success(ctx.embed(t.block, Some(bound.value))))
                  && (bound.Success? && Params.ParamsError(Some(bound.value)).None? && !HasContext(b) ==>
                        r == Failure(NoMethod("context"))))
  {
    var t := p.tokens[k];
    assert RenderToken(fam, ctx, p, k, b, fuel) == Included(ctx, b, t.block, BindOpt(fam, ctx, p, t.params, b, fuel));
  }

  /** A template with no binder class renders against nil, and every blk, static, url or
      api token then raises, so the whole render fails. */
  lemma NoContextFails(fam: Family, ctx: Context, p: Parsed, k: nat, b: Value, fuel: nat)
    requires k < |p.tokens| && !HasContext(b)
    requires p.tokens[k].Blk? || p.tokens[k].Static? || p.tokens[k].Url? || p.tokens[k].Api?
    ensures RenderToken(fam, ctx, p, k, b, fuel).Failure?
    ensures RenderParsed(fam, ctx, p, b, fuel).Failure?
  {
    assert RenderToken(fam, ctx, p, k, b, fuel).Failure? by {
      var t := p.tokens[k];
      if t.Blk? || t.Static? {
        assert RenderToken(fam, ctx, p, k, b, fuel) == Included(ctx, b, t.block, BindOpt(fam, ctx, p, t.params, b, fuel));
      }
    }
    RenderFromSucceeds(fam, ctx, p, b, p.text, 0, fuel);
  }

  /** Iblk#render: the then-block with the then-parameters when the test is present and
      truthy, the else-block with the else-parameters otherwise. */
  lemma IBlockRender(fam: Family, ctx: Context, p: Parsed, k: nat, b: Value, fuel: nat)
    requires k < |p.tokens| && p.tokens[k].IBlk? && DataOf(b).Some?
    ensures var t, r := p.tokens[k], RenderToken(fam, ctx, p, k, b, fuel);
            var test := Truthy(Lookup(DataOf(b).value, t.test));
            && (test ==> r == Included(ctx, b, t.thenBlock, BindOpt(fam, ctx, p, t.thenParams, b, fuel)))
            && (!test ==> r == Included(ctx, b, t.elseBlock, BindOpt(fam, ctx, p, t.elseParams, b, fuel)))
  {
  }

  // ---------------------------------------------------------------- the purl of an app

  /** ParsedUrl#render as written fails on every purl naming an app, whatever the layout and
      the parameters; the builder call it evidently means renders them. Either way a binder
      without a context fails first, at `binder.context`. */
  lemma PurlWithApp(ctx: Context, b: Value, app: string, layout: string, params: Option<string>)
    ensures HasContext(b) ==> UrlLinkAsWritten(ParsedEntities, ctx, b, "purl", Some(app), layout, params) == Failure(NoMethod("tp_h"))
    ensures HasContext(b) ==> UrlLink(ParsedEntities, ctx, b, "purl", Some(app), layout, params) == Success(ctx.link("purl", Some(app), layout, params))
    ensures !HasContext(b) ==> UrlLinkAsWritten(ParsedEntities, ctx, b, "purl", Some(app), layout, params) == Failure(NoMethod("context"))
                               && UrlLink(ParsedEntities, ctx, b, "purl", Some(app), layout, params) == Failure(NoMethod("context"))
  {
  }
}
