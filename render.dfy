/** Rendering a parsed template against a binder (ParserNext#render and every token's
    `render`): the parser's text with the anchor of each token, in list order, replaced by
    that token's rendering. Rendering reads nothing but the tree, the binder and the
    context, so it is a function; the imperative forms of ParserNext#render and Loop#render
    are proved against it.

    A rendering that raises in Ruby is a Failure naming what raised. Parameters of
    inclusions and url/api fields are bound first (`bind_value`): each anchor in them is
    replaced by the rendering of the first token of the same parser that carries it. Such a
    binding may name any token, itself included, so `fuel` bounds how deeply bindings nest;
    Ruby has no such bound and overflows its stack on a cycle. */
module Render {
  import opened Wrappers
  import opened Strings
  import opened Values
  import opened Syntax
  import opened TokenTree
  import Params

  /** `binder.context` and what the tokens ask of it, all outside the template engine:
      the content escape method (None when calling it raises), the rendering of an included
      template copy with the parameters set on it (`blk.render binder.context`), the url
      and path builders (kind, app, bound layout, bound parameters) and the api builders
      (kind, handler, verb, predicate, sufix, app). */
  datatype Context = Context(
    escape: string -> Option<string>,
    embed: (BlockRef, Option<string>) -> string,
    link: (string, Option<string>, string, Option<string>) -> string,
    api: (string, string, string, Option<string>, Option<string>, Option<string>) -> string)

  type Rendering = Result<string, Err>

  /** Two renderings one after the other: the first failure, or both texts. */
  function Cat(a: Rendering, b: Rendering): (r: Rendering)
    ensures r.Success? <==> a.Success? && b.Success?
    ensures r.Success? ==> r.value == a.value + b.value
    ensures a.Failure? ==> r == Failure(a.error)
    ensures a.Success? && b.Failure? ==> r == Failure(b.error)
  {
    if a.Failure? then Failure(a.error)
    else if b.Failure? then Failure(b.error)
    else Success(a.value + b.value)
  }

  /** `parser.the_parsed.select { |p| p.anchor == match }.first`, as an index into `ts[k..]`. */
  function FirstWithAnchor(fam: Family, ts: seq<Token>, a: string, k: nat): (r: Option<nat>)
    requires k <= |ts|
    ensures r.Some? ==> k <= r.value < |ts| && Anchor(fam, ts[r.value].oid) == a
    ensures r.Some? ==> forall j :: k <= j < r.value ==> Anchor(fam, ts[j].oid) != a
    ensures r.None? ==> forall j :: k <= j < |ts| ==> Anchor(fam, ts[j].oid) != a
    decreases |ts| - k
  {
    if k == |ts| then None
    else if Anchor(fam, ts[k].oid) == a then Some(k)
    else FirstWithAnchor(fam, ts, a, k + 1)
  }

  /** What a Meta or Var token shows for a value the binder answers. */
  function Shown(v: Value): (r: Rendering)
    ensures r.Success? <==> ToS(v).Some?
    ensures r.Success? ==> r.value == ToS(v).value
  {
    match ToS(v)
    case Some(s) => Success(s)
    case None => Failure(Unmodelled("to_s"))
  }

  /** Var#render of the token classes: `value.send(parser.content_escape_method)`, or the
      value itself when that raises. */
  function Escaped(ctx: Context, v: string): (r: string)
    ensures ctx.escape(v).None? ==> r == v
    ensures ctx.escape(v).Some? ==> r == ctx.escape(v).value
  {
    match ctx.escape(v)
    case Some(e) => e
    case None => v
  }

  /** The items `looper.data.each` yields. parsernext.rb skips any falsy looper
      (`... if looper`); the token classes skip only nil (`looper&.data&.each`), so a false
      looper raises there. A loop binder yields its items; the members of a Struct are
      outside the model; other values have no `data`. */
  function LoopItems(fam: Family, looper: Value): (r: Result<seq<Value>, Err>)
    ensures looper.Nil? ==> r == Success([])
    ensures looper.Looper? ==> r == Success(looper.items)
    ensures looper == Bool(false) ==> (r.Success? <==> fam == ParsedEntities)
    ensures r.Success? ==> r.value == [] || looper.Looper?
  {
    match looper
    case Nil => Success([])
    case Bool(b) => if !b && fam == ParsedEntities then Success([]) else Failure(NoMethod("data"))
    case Looper(items) => Success(items)
    case Record(_) => Failure(Unmodelled("each"))
    case Opaque(name) => Failure(Unmodelled("data"))
    case _ => Failure(NoMethod("data"))
  }

  /** An inclusion's render: the parameters, when the token has any, are bound and set on
      the template copy (`blk.params = b_params`, which is `Parameters.new`), then the copy
      is rendered against `binder.context`. Each step can raise, in that order. */
  function Included(ctx: Context, b: Value, block: BlockRef, bound: Option<Rendering>): (r: Rendering)
    ensures r.Success? <==> (bound.Some? ==> bound.value.Success? && Params.ParamsError(Some(bound.value.value)).None?)
                            && HasContext(b)
    ensures bound.Some? && bound.value.Failure? ==> r == Failure(bound.value.error)
    ensures bound.Some? && bound.value.Success? && Params.ParamsError(Some(bound.value.value)).Some? ==>
              r == Failure(Params.ParamsError(Some(bound.value.value)).value)
    ensures (bound.Some? ==> bound.value.Success? && Params.ParamsError(Some(bound.value.value)).None?) && !HasContext(b) ==>
              r == Failure(NoMethod("context"))
    ensures r.Success? ==> r.value == ctx.embed(block, if bound.Some? then Some(bound.value.value) else None)
  {
    match bound
    case Some(Failure(e)) => Failure(e)
    case Some(Success(v)) =>
      if Params.ParamsError(Some(v)).Some? then Failure(Params.ParamsError(Some(v)).value)
      else if !HasContext(b) then Failure(NoMethod("context"))
      else Success(ctx.embed(block, Some(v)))
    case None =>
      if !HasContext(b) then Failure(NoMethod("context")) else Success(ctx.embed(block, None))
  }

  /** The first failure of an optional binding. */
  function OptCat(a: Rendering, b: Option<Rendering>): (r: Result<Option<string>, Err>)
    ensures r.Success? <==> a.Success? && (b.Some? ==> b.value.Success?)
    ensures r.Success? ==> r.value == (if b.Some? then Some(b.value.value) else None)
  {
    if a.Failure? then Failure(a.error)
    else if b.None? then Success(None)
    else if b.value.Failure? then Failure(b.value.error)
    else Success(Some(b.value.value))
  }

  /** ParsedUrl#render after binding, as written in parsernext.rb: `binder.context` is
      sent first, then a purl with an app asks `Parameters#tp_h`, which does not exist. */
  function UrlLinkAsWritten(fam: Family, ctx: Context, b: Value, kind: string, app: Option<string>,
                            layout: string, params: Option<string>): (r: Rendering)
    ensures !HasContext(b) ==> r == Failure(NoMethod("context"))
    ensures HasContext(b) && fam == ParsedEntities && kind == "purl" && app.Some? ==> r == Failure(NoMethod("tp_h"))
    ensures HasContext(b) && !(fam == ParsedEntities && kind == "purl" && app.Some?) ==>
              r == Success(ctx.link(kind, app, layout, params))
  {
    if !HasContext(b) then Failure(NoMethod("context"))
    else if fam == ParsedEntities && kind == "purl" && app.Some? then Failure(NoMethod("tp_h"))
    else Success(ctx.link(kind, app, layout, params))
  }

  /** The url and path builders, as both token generations evidently mean them: one call
      on `binder.context` with the bound layout and parameters. */
  function UrlLink(fam: Family, ctx: Context, b: Value, kind: string, app: Option<string>,
                   layout: string, params: Option<string>): (r: Rendering)
    ensures r.Success? <==> HasContext(b)
    ensures r.Failure? ==> r == Failure(NoMethod("context"))
    ensures r.Success? ==> r.value == ctx.link(kind, app, layout, params)
  {
    if !HasContext(b) then Failure(NoMethod("context")) else Success(ctx.link(kind, app, layout, params))
  }

  /** The gsub of `bind_value` over `s[i..]`: text outside anchors is kept, an anchor is
      replaced by the rendering of the first token of `p` carrying it, and an anchor no
      token carries calls `render` on nil. */
  function BindValue(fam: Family, ctx: Context, p: Parsed, s: string, i: nat, b: Value, fuel: nat): (r: Rendering)
    requires i <= |s|
    decreases fuel, p, 2, |s| - i
  {
    if i == |s| then Success("")
    else
      match MatchAnchor(s, i, Delim(fam))
      case None => Cat(Success([s[i]]), BindValue(fam, ctx, p, s, i + 1, b, fuel))
      case Some(e) =>
        match FirstWithAnchor(fam, p.tokens, s[i..e], 0)
        case None => Failure(NoMethod("render"))
        case Some(k) =>
          if fuel == 0 then Failure(OutOfFuel)
          else Cat(RenderToken(fam, ctx, p, k, b, fuel - 1), BindValue(fam, ctx, p, s, e, b, fuel))
  }

  function BindOpt(fam: Family, ctx: Context, p: Parsed, s: Option<string>, b: Value, fuel: nat): Option<Rendering>
    decreases fuel, p, 3
  {
    if s.Some? then Some(BindValue(fam, ctx, p, s.value, 0, b, fuel)) else None
  }

  /** The `render(binder)` of token `p.tokens[k]`, a token of parser `p`. */
  function RenderToken(fam: Family, ctx: Context, p: Parsed, k: nat, b: Value, fuel: nat): (r: Rendering)
    requires k < |p.tokens|
    decreases fuel, p, 4
  {
    var t := p.tokens[k];
    if (t.Meta? || t.Var? || t.Loop? || t.Ife? || t.IBlk?) && DataOf(b).None? then Failure(NoMethod("data"))
    else
      match t
      case Meta(_, id) =>
        var d := DataOf(b).value;
        if id in d then Shown(d[id]) else Success(Placeholder(fam, id))
      case Var(_, _, id) =>
        var d := DataOf(b).value;
        if id !in d then Success(Placeholder(fam, id))
        else if Shown(d[id]).Failure? then Shown(d[id])
        else Success(if fam == TokenClasses then Escaped(ctx, Shown(d[id]).value) else Shown(d[id]).value)
      case Loop(_, id, body) =>
        var items := LoopItems(fam, Lookup(DataOf(b).value, id));
        if items.Failure? then Failure(items.error) else RenderItems(fam, ctx, body, items.value, fuel)
      case Ife(_, test, thenP, elseP) =>
        if Truthy(Lookup(DataOf(b).value, test)) then RenderParsed(fam, ctx, thenP, b, fuel)
        else if elseP.Some? then RenderParsed(fam, ctx, elseP.value, b, fuel)
        else Success("")
      case Blk(_, _, params, block) =>
        Included(ctx, b, block, BindOpt(fam, ctx, p, params, b, fuel))
      case Static(_, _, params, block) =>
        Included(ctx, b, block, BindOpt(fam, ctx, p, params, b, fuel))
      case IBlk(_, test, _, thenParams, _, elseParams, thenBlock, elseBlock) =>
        if Truthy(Lookup(DataOf(b).value, test)) then Included(ctx, b, thenBlock, BindOpt(fam, ctx, p, thenParams, b, fuel))
        else Included(ctx, b, elseBlock, BindOpt(fam, ctx, p, elseParams, b, fuel))
      case Url(_, kind, layout, params, app) =>
        var bl := BindValue(fam, ctx, p, layout, 0, b, fuel);
        var bp := BindOpt(fam, ctx, p, params, b, fuel);
        // parsernext.rb binds the parameters first, the token classes the layout first
        var first := if fam == ParsedEntities && bp.Some? && bp.value.Failure? then Failure(bp.value.error) else bl;
        var bound := OptCat(first, bp);
        if bound.Failure? then Failure(bound.error) else UrlLink(fam, ctx, b, kind, app, bl.value, bound.value)
      case Api(_, kind, handler, verb, pred, sufix, app) =>
        var bh := BindValue(fam, ctx, p, handler, 0, b, fuel);
        var bv := BindValue(fam, ctx, p, verb, 0, b, fuel);
        var bpred := OptCat(Success(""), BindOpt(fam, ctx, p, pred, b, fuel));
        var bsuf := OptCat(Success(""), BindOpt(fam, ctx, p, sufix, b, fuel));
        if bh.Failure? then Failure(bh.error)
        else if bv.Failure? then Failure(bv.error)
        else if bpred.Failure? then Failure(bpred.error)
        else if bsuf.Failure? then Failure(bsuf.error)
        else if !HasContext(b) then Failure(NoMethod("context"))
        else Success(ctx.api(kind, bh.value, bv.value, bpred.value, bsuf.value, app))
  }

  /** The `gsub!` loop of ParserNext#render from token `k` on, over the working copy
      `text`. Every token is rendered, whether or not its anchor is still in the text. */
  function RenderFrom(fam: Family, ctx: Context, p: Parsed, b: Value, text: string, k: nat, fuel: nat): (r: Rendering)
    requires k <= |p.tokens|
    decreases fuel, p, 5, |p.tokens| - k
  {
    if k == |p.tokens| then Success(text)
    else
      match RenderToken(fam, ctx, p, k, b, fuel)
      case Failure(e) => Failure(e)
      case Success(v) => RenderFrom(fam, ctx, p, b, Replace(text, Anchor(fam, p.tokens[k].oid), v), k + 1, fuel)
  }

  /** ParserNext#render: a copy of the text with every token's anchor replaced, in list
      order, by the token's rendering. */
  function RenderParsed(fam: Family, ctx: Context, p: Parsed, b: Value, fuel: nat): (r: Rendering)
    decreases fuel, p, 6
  {
    RenderFrom(fam, ctx, p, b, p.text, 0, fuel)
  }

  /** The body of a loop rendered once per truthy item, with the item as binder, joined. */
  function RenderItems(fam: Family, ctx: Context, body: Parsed, items: seq<Value>, fuel: nat): (r: Rendering)
    decreases fuel, body, 7, |items|
  {
    if items == [] then Success("")
    else Cat(if Truthy(items[0]) then RenderParsed(fam, ctx, body, items[0], fuel) else Success(""),
             RenderItems(fam, ctx, body, items[1..], fuel))
  }

  // ---------------------------------------------------------------- Loop#render

  lemma CatAssoc(a: Rendering, b: Rendering, c: Rendering)
    ensures Cat(Cat(a, b), c) == Cat(a, Cat(b, c))
  {
    if a.Success? && b.Success? && c.Success? {
      assert a.value + b.value + c.value == a.value + (b.value + c.value);
    }
  }

  /** Loop#render: a String appended to once per truthy item of `looper.data`, in order. */
  method RenderLoop(fam: Family, ctx: Context, p: Parsed, k: nat, b: Value, fuel: nat) returns (r: Rendering)
    requires k < |p.tokens| && p.tokens[k].Loop?
    ensures r == RenderToken(fam, ctx, p, k, b, fuel)
  {
    var t := p.tokens[k];
    if DataOf(b).None? {
      return Failure(NoMethod("data"));
    }
    var looper := Lookup(DataOf(b).value, t.id);
    var items := LoopItems(fam, looper);
    if items.Failure? {
      return Failure(items.error);
    }
    var all := items.value;
    assert RenderToken(fam, ctx, p, k, b, fuel) == RenderItems(fam, ctx, t.body, all, fuel);
    var text := "";
    var i := 0;
    assert all[i..] == all;
    var whole := RenderItems(fam, ctx, t.body, all, fuel);
    assert whole.Success? ==> text + whole.value == whole.value;
    while i < |all|
      invariant i <= |all|
      invariant RenderItems(fam, ctx, t.body, all, fuel) == Cat(Success(text), RenderItems(fam, ctx, t.body, all[i..], fuel))
    {
      var item := all[i];
      var piece: Rendering := Success("");
      if Truthy(item) {
        piece := RenderParsed(fam, ctx, t.body, item, fuel);
      }
      assert all[i..][1..] == all[i + 1..];
      CatAssoc(Success(text), piece, RenderItems(fam, ctx, t.body, all[i + 1..], fuel));
      if piece.Failure? {
        return Failure(piece.error);
      }
      text := text + piece.value;
      i := i + 1;
    }
    assert RenderItems(fam, ctx, t.body, all[i..], fuel) == Success("");
    assert text + "" == text;
    return Success(text);
  }
}
