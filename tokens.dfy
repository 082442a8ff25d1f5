/** The token tree a parse builds: one variant per token class, the anchor that stands for a
    token in its parser's text, the dispatch from a recognised construct to a token
    (`instance` together with the token's own `parse!`), the way an inclusion finds its
    template (`obtain_block`), and the two derived lookups `attribute_tags` and
    `loop_parser` / `loop_token`.

    Two generations of token classes share the one parser: the ParsedEntity classes of
    parsernext.rb and the Token classes of token.rb with the files under tokens/. `Family` names the
    generation and selects the few places they differ. */
module TokenTree {
  import opened Wrappers
  import opened Strings
  import opened Seqs
  import opened Syntax

  datatype Family = ParsedEntities | TokenClasses

  datatype TemplateKind = LayoutType | BlockType | StaticType

  /** A template an inclusion token refers to: `Factory.empty`, the template being parsed
      itself (the self-inclusion guard), or the one the factory hands out for a kind and name. */
  datatype BlockRef = EmptyBlock | SelfBlock | Fetch(kind: TemplateKind, name: string)

  /** What a parser knows about where it runs: the token family and, when a template drives
      it, that template's id and kind. */
  datatype Env = Env(fam: Family, template: Option<(string, TemplateKind)>)

  datatype Token =
    | Meta(oid: nat, id: string)
    | Var(oid: nat, format: Option<string>, id: string)
    | Url(oid: nat, kind: string, layout: string, params: Option<string>, app: Option<string>)
    | Api(oid: nat, kind: string, handler: string, verb: string, pred: Option<string>,
          sufix: Option<string>, app: Option<string>)
    | Loop(oid: nat, id: string, body: Parsed)
    | Ife(oid: nat, test: string, thenP: Parsed, elseP: Option<Parsed>)
    | Blk(oid: nat, id: string, params: Option<string>, block: BlockRef)
    | IBlk(oid: nat, test: string, thenId: string, thenParams: Option<string>,
           elseId: string, elseParams: Option<string>, thenBlock: BlockRef, elseBlock: BlockRef)
    | Static(oid: nat, id: string, params: Option<string>, block: BlockRef)

  /** A parser after `parse!`: its working text, `the_parsed`, `childrens` and `flags`. */
  datatype Parsed = Parsed(text: string, tokens: seq<Token>, children: seq<BlockRef>, flags: Option<string>)

  // ---------------------------------------------------------------- anchors

  /** The anchor delimiter: `@@` in parsernext.rb, `$$` in token.rb. */
  function Delim(fam: Family): (d: string)
    ensures IsDelim(d) && |d| == 2
  {
    if fam == ParsedEntities then "@@" else "$$"
  }

  /** `"#{delim}#{"%x" % object_id}#{delim}"`, the string a token leaves in its parser's text. */
  function Anchor(fam: Family, oid: nat): string {
    Delim(fam) + Hex(oid) + Delim(fam)
  }

  /** Every anchor is matched, whole, by RE_ANCHOR. */
  lemma AnchorMatches(fam: Family, oid: nat)
    ensures MatchAnchor(Anchor(fam, oid), 0, Delim(fam)) == Some(|Anchor(fam, oid)|)
  {
    var a := Anchor(fam, oid);
    assert a[0..|a|] == a;
    StartsAtSlice(a, 0, Delim(fam) + Hex(oid) + Delim(fam));
    AnchorComplete(a, 0, Delim(fam), Hex(oid));
  }

  /** Distinct object ids give distinct anchors. */
  lemma AnchorInjective(fam: Family, a: nat, b: nat)
    requires Anchor(fam, a) == Anchor(fam, b)
    ensures a == b
  {
    var d := Delim(fam);
    var x, y := Anchor(fam, a), Anchor(fam, b);
    assert Hex(a) == x[2..|x| - 2];
    assert Hex(b) == y[2..|y| - 2];
    HexInjective(a, b);
  }

  /** What Meta and Var render for a tag the binder does not answer. */
  function Placeholder(fam: Family, id: string): (r: string)
    ensures fam == TokenClasses ==> r == id
    ensures fam == ParsedEntities ==> r == id + ":unknown!!"
  {
    if fam == ParsedEntities then id + ":unknown!!" else id
  }

  // ---------------------------------------------------------------- instance

  /** The type tag `parse_*` hands to `instance` for a construct. */
  function TagOf(c: Construct): (tag: string)
    ensures KnownTag(tag)
  {
    match c
    case MetaC(_) => "meta"
    case VarC(_, _) => "var"
    case UrlC(_, _, _, _) => "url"
    case ApiC(_, _, _, _, _, _) => "api"
    case LoopC(_, _) => "loop"
    case IfeC(_, _, _) => "ife"
    case BlkC(_, _) => "blk"
    case IBlkC(_, _, _, _, _) => "iblk"
    case StaticC(_, _) => "static"
  }

  /** The tags `instance` knows. */
  predicate KnownTag(tag: string) {
    tag in {"meta", "var", "url", "api", "loop", "ife", "blk", "iblk", "static"}
  }

  /** The bodies a statement token parses with child parsers, in order. */
  function Bodies(c: Construct): seq<string> {
    match c
    case LoopC(_, body) => [body]
    case IfeC(_, t, e) => if e.Some? then [t, e.value] else [t]
    case _ => []
  }

  /** The `type` a token reports: url and api tokens take it from the match (url or purl,
      api or sapi), every other token from its tag. */
  function TypeOf(t: Token): string {
    match t
    case Meta(_, _) => "meta"
    case Var(_, _, _) => "var"
    case Url(_, kind, _, _, _) => kind
    case Api(_, kind, _, _, _, _, _) => kind
    case Loop(_, _, _) => "loop"
    case Ife(_, _, _, _) => "ife"
    case Blk(_, _, _, _) => "blk"
    case IBlk(_, _, _, _, _, _, _, _) => "iblk"
    case Static(_, _, _, _) => "static"
  }

  /** `app_name`: the `#app` group without its `#`. */
  function AppName(app: Option<string>): Option<string> {
    if app.Some? && |app.value| > 0 then Some(app.value[1..]) else None
  }

  /** `instance(parser, type, match)` followed by the token's `parse!`: the token the tag and
      the construct's groups make, given the parses of the construct's bodies. An unknown
      tag, or a tag naming another construct than the one matched, gives no token. */
  function Instance(env: Env, tag: string, c: Construct, oid: nat, kids: seq<Parsed>): (r: Option<Token>)
    requires |kids| == |Bodies(c)|
    ensures r.Some? <==> KnownTag(tag) && tag == TagOf(c)
    ensures r.Some? ==> r.value.oid == oid
    ensures r.Some? && !c.UrlC? && !c.ApiC? ==> TypeOf(r.value) == tag
    ensures r.Some? && c.MetaC? ==> r.value == Meta(oid, c.id)
    ensures r.Some? && c.VarC? ==> r.value == Var(oid, c.format, c.id)
    ensures r.Some? && c.BlkC? ==> r.value == Blk(oid, c.id, c.params, ObtainBlock(env, c.id))
    ensures r.Some? && c.IBlkC? ==> r.value == IBlk(oid, c.test, c.thenId, c.thenParams, c.elseId, c.elseParams,
                                                    ObtainBlock(env, c.thenId), ObtainBlock(env, c.elseId))
    ensures r.Some? && c.StaticC? ==> r.value == Static(oid, c.id, c.params, Fetch(StaticType, c.id))
    ensures r.Some? && c.UrlC? ==> r.value == Url(oid, c.kind, c.layout, c.params, AppName(c.app))
    ensures r.Some? && c.ApiC? ==> r.value == Api(oid, c.kind, c.handler, c.verb, c.pred, c.sufix, AppName(c.app))
    ensures r.Some? && c.LoopC? ==> r.value == Loop(oid, c.id, kids[0])
    ensures r.Some? && c.IfeC? ==> r.value.Ife? && r.value.thenP == kids[0]
                                   && (r.value.elseP.Some? <==> c.elseBody.Some?)
                                   && (c.elseBody.Some? ==> r.value.elseP == Some(kids[1]))
  {
    if !KnownTag(tag) || tag != TagOf(c) then None
    else
      match c
      case MetaC(id) => Some(Meta(oid, id))
      case VarC(format, id) => Some(Var(oid, format, id))
      case UrlC(kind, app, layout, params) => Some(Url(oid, kind, layout, params, AppName(app)))
      case ApiC(kind, app, handler, verb, pred, sufix) => Some(Api(oid, kind, handler, verb, pred, sufix, AppName(app)))
      case LoopC(id, _) => Some(Loop(oid, id, kids[0]))
      case IfeC(test, _, e) => Some(Ife(oid, test, kids[0], if e.Some? then Some(kids[1]) else None))
      case BlkC(id, params) => Some(Blk(oid, id, params, ObtainBlock(env, id)))
      case IBlkC(test, t, tp, e, ep) => Some(IBlk(oid, test, t, tp, e, ep, ObtainBlock(env, t), ObtainBlock(env, e)))
      case StaticC(id, params) => Some(Static(oid, id, params, Fetch(StaticType, id)))
  }

  /** `obtain_block(id)` of tokens/block.rb: `__empty__` is the empty template, the id of the
      block template being parsed is that template itself, anything else goes to the
      factory. The ParsedEntity classes always ask `Engine.block`. */
  function ObtainBlock(env: Env, id: string): (r: BlockRef)
    ensures r == EmptyBlock <==> env.fam == TokenClasses && id == "__empty__"
    ensures r == SelfBlock <==> env.fam == TokenClasses && id != "__empty__" && env.template == Some((id, BlockType))
    ensures r.Fetch? ==> r == Fetch(BlockType, id)
  {
    match env.fam
    case ParsedEntities => Fetch(BlockType, id)
    case TokenClasses =>
      if id == "__empty__" then EmptyBlock
      else if env.template == Some((id, BlockType)) then SelfBlock
      else Fetch(BlockType, id)
  }

  /** What a token's `parse!` appends to its parser's `childrens`. */
  function ChildrenOf(t: Token): seq<BlockRef> {
    match t
    case Blk(_, _, _, b) => [b]
    case IBlk(_, _, _, _, _, _, bt, be) => [bt, be]
    case Static(_, _, _, b) => [b]
    case _ => []
  }

  // ---------------------------------------------------------------- attribute tags

  /** `p.id if p.respond_to? :id`: the tokens that answer `id`. An iblk answers its test. */
  function IdOf(fam: Family, t: Token): Option<string> {
    match t
    case Meta(_, id) => Some(id)
    case Var(_, _, id) => Some(id)
    case Loop(_, id, _) => Some(id)
    case IBlk(_, test, _, _, _, _, _, _) => Some(test)
    case Blk(_, id, _, _) => if fam == TokenClasses then Some(id) else None
    case Static(_, id, _, _) => if fam == TokenClasses then Some(id) else None
    case _ => None
  }

  function Ids(fam: Family, ts: seq<Token>): (r: seq<string>)
    ensures forall x :: x in r <==> exists k :: 0 <= k < |ts| && IdOf(fam, ts[k]) == Some(x)
  {
    if ts == [] then []
    else
      var rest := Ids(fam, ts[1..]);
      assert forall k :: 1 <= k < |ts| ==> ts[k] == ts[1..][k - 1];
      (if IdOf(fam, ts[0]).Some? then [IdOf(fam, ts[0]).value] else []) + rest
  }

  /** ParserNext#attribute_tags: the ids of the tokens that have one, then the tags of every
      ife, without repetitions. */
  function AttributeTags(fam: Family, p: Parsed): seq<string>
    decreases p, 1
  {
    Uniq(Ids(fam, p.tokens) + IfeTagsFrom(fam, p, 0))
  }

  /** The tags of the ifes among `p.tokens[k..]`, concatenated. */
  function IfeTagsFrom(fam: Family, p: Parsed, k: nat): seq<string>
    requires k <= |p.tokens|
    decreases p, 0, |p.tokens| - k
  {
    if k == |p.tokens| then []
    else (if p.tokens[k].Ife? then IfeTags(fam, p.tokens[k]) else []) + IfeTagsFrom(fam, p, k + 1)
  }

  /** Ife#attribute_tags: the test, the then-branch's tags and the else-branch's tags,
      without repetitions. */
  function IfeTags(fam: Family, t: Token): seq<string>
    requires t.Ife?
    decreases t
  {
    Uniq([t.test] + AttributeTags(fam, t.thenP) + (if t.elseP.Some? then AttributeTags(fam, t.elseP.value) else []))
  }

  /** The tags of a loop token are those of its body parser. */
  function LoopTags(fam: Family, t: Token): seq<string>
    requires t.Loop?
  {
    AttributeTags(fam, t.body)
  }

  lemma {:induction false} IfeTagsFromMembers(fam: Family, p: Parsed, k: nat, x: string)
    requires k <= |p.tokens|
    ensures x in IfeTagsFrom(fam, p, k) <==> exists j :: k <= j < |p.tokens| && p.tokens[j].Ife? && x in IfeTags(fam, p.tokens[j])
    decreases |p.tokens| - k
  {
    if k < |p.tokens| {
      IfeTagsFromMembers(fam, p, k + 1, x);
      var head := if p.tokens[k].Ife? then IfeTags(fam, p.tokens[k]) else [];
      assert IfeTagsFrom(fam, p, k) == head + IfeTagsFrom(fam, p, k + 1);
      if x in head {
        assert p.tokens[k].Ife? && x in IfeTags(fam, p.tokens[k]);
      }
      if exists j :: k <= j < |p.tokens| && p.tokens[j].Ife? && x in IfeTags(fam, p.tokens[j]) {
        var j :| k <= j < |p.tokens| && p.tokens[j].Ife? && x in IfeTags(fam, p.tokens[j]);
        if j == k {
          assert x in head;
        } else {
          assert x in IfeTagsFrom(fam, p, k + 1);
        }
      }
    }
  }

  /** A tag is an attribute tag exactly when some token has it as its id or some ife of the
      same parser lists it. */
  lemma AttributeTagsMembers(fam: Family, p: Parsed, x: string)
    ensures x in AttributeTags(fam, p) <==>
            (exists k :: 0 <= k < |p.tokens| && IdOf(fam, p.tokens[k]) == Some(x))
            || (exists k :: 0 <= k < |p.tokens| && p.tokens[k].Ife? && x in IfeTags(fam, p.tokens[k]))
  {
    IfeTagsFromMembers(fam, p, 0, x);
  }

  /** An ife's tags are its test and the tags of its branches. */
  lemma IfeTagsMembers(fam: Family, t: Token, x: string)
    requires t.Ife?
    ensures x in IfeTags(fam, t) <==>
            x == t.test || x in AttributeTags(fam, t.thenP) || (t.elseP.Some? && x in AttributeTags(fam, t.elseP.value))
  {
  }

  /** The attribute tags have no repetitions and keep the order of first occurrence in the
      list of ids followed by the ifes' tags. */
  lemma AttributeTagsOrder(fam: Family, p: Parsed)
    ensures var all := Ids(fam, p.tokens) + IfeTagsFrom(fam, p, 0);
            var r := AttributeTags(fam, p);
            Distinct(r) && forall i, j :: 0 <= i < j < |r| ==> FirstIndex(all, r[i]) < FirstIndex(all, r[j])
  {
    UniqOrder(Ids(fam, p.tokens) + IfeTagsFrom(fam, p, 0));
  }

  // ---------------------------------------------------------------- loop lookup

  /** The loop tokens with tag `id` among `ts`, in order. */
  function LoopsNamed(ts: seq<Token>, id: string): (r: seq<Token>)
    ensures forall u :: u in r <==> u in ts && u.Loop? && u.id == id
  {
    if ts == [] then []
    else (if ts[0].Loop? && ts[0].id == id then [ts[0]] else []) + LoopsNamed(ts[1..], id)
  }

  /** ParserNext#loop_parser (`loop_token` in token.rb): the loops named `id` at this level,
      then those the ifes find in their branches. Loop bodies are not searched. */
  function LoopParser(p: Parsed, id: string): seq<Token>
    decreases p, 1
  {
    LoopsNamed(p.tokens, id) + IfeLoopsFrom(p, 0, id)
  }

  function IfeLoopsFrom(p: Parsed, k: nat, id: string): seq<Token>
    requires k <= |p.tokens|
    decreases p, 0, |p.tokens| - k
  {
    if k == |p.tokens| then []
    else (if p.tokens[k].Ife? then IfeLoops(p.tokens[k], id) else []) + IfeLoopsFrom(p, k + 1, id)
  }

  /** Ife#loop_token: the then-branch's matches, then the else-branch's. */
  function IfeLoops(t: Token, id: string): seq<Token>
    requires t.Ife?
    decreases t
  {
    LoopParser(t.thenP, id) + (if t.elseP.Some? then LoopParser(t.elseP.value, id) else [])
  }

  /** `u` is a token of `p`, or of a branch of an ife of `p`, and so on: the part of the tree
      that is searched without entering a loop body. */
  predicate Visible(p: Parsed, u: Token)
    decreases p, 1
  {
    u in p.tokens || exists k :: 0 <= k < |p.tokens| && VisibleInIfe(p.tokens[k], u)
  }

  predicate VisibleInIfe(t: Token, u: Token)
    decreases t
  {
    t.Ife? && (Visible(t.thenP, u) || (t.elseP.Some? && Visible(t.elseP.value, u)))
  }

  lemma {:induction false} IfeLoopsFromMembers(p: Parsed, k: nat, id: string, u: Token)
    requires k <= |p.tokens|
    ensures u in IfeLoopsFrom(p, k, id) <==>
            u.Loop? && u.id == id && exists j :: k <= j < |p.tokens| && VisibleInIfe(p.tokens[j], u)
    decreases p, 0, |p.tokens| - k
  {
    if k < |p.tokens| {
      IfeLoopsFromMembers(p, k + 1, id, u);
      var t := p.tokens[k];
      if t.Ife? {
        LoopParserMembers(t.thenP, id, u);
        if t.elseP.Some? {
          LoopParserMembers(t.elseP.value, id, u);
        }
      }
    }
  }

  /** loop_parser finds exactly the loops named `id` that are visible without entering a loop
      body. */
  lemma {:induction false} LoopParserMembers(p: Parsed, id: string, u: Token)
    ensures u in LoopParser(p, id) <==> u.Loop? && u.id == id && Visible(p, u)
    decreases p, 1
  {
    IfeLoopsFromMembers(p, 0, id, u);
  }
}
