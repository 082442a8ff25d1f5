/** The ParserNext object of lib/tzispa/rig/parsernext.rb: its working text, `the_parsed`,
    `childrens`, `flags` and the memoised `attribute_tags`, with parse! and its stages as
    methods that update them and render as a method that reads them. Each is proved
    against the functions of Parse and Render. Object ids come from the caller: a parse
    takes the first free id and returns the next one. */
module Parser {
  import opened Wrappers
  import opened Strings
  import opened Values
  import opened Syntax
  import opened TokenTree
  import opened Parse
  import opened Render

  class ParserNext {
    const env: Env
    const bindable: bool
    var innerText: string              // @inner_text
    var theParsed: seq<Token>          // @the_parsed
    var childrens: seq<BlockRef>       // @childrens
    var flags: Option<string>          // @flags
    var tagsMemo: Option<seq<string>>  // @attribute_tags

    /** The parse as a value. */
    function Snapshot(): Parsed
      reads this
    {
      Parsed(innerText, theParsed, childrens, flags)
    }

    /** The memo, once set, holds the attribute tags of the parse. */
    predicate Valid()
      reads this
    {
      tagsMemo.Some? ==> tagsMemo.value == AttributeTags(env.fam, Snapshot())
    }

    /** ParserNext.new: no tokens yet; `bindable` nil takes the parent's. */
    constructor (env: Env, text: string, bindable: Option<bool>, parent: Option<ParserNext>)
      requires bindable.Some? || parent.Some?
      ensures this.env == env && innerText == text
      ensures this.bindable == if bindable.Some? then bindable.value else parent.value.bindable
      ensures theParsed == [] && childrens == [] && flags == None && tagsMemo == None
      ensures Valid()
    {
      this.env := env;
      this.bindable := if bindable.Some? then bindable.value else parent.value.bindable;
      innerText := text;
      theParsed := [];
      childrens := [];
      flags := None;
      tagsMemo := None;
    }

    /** `empty?`. */
    function IsEmpty(): (r: bool)
      reads this
      ensures r <==> |Snapshot().tokens| == 0
    {
      theParsed == []
    }

    /** parse_flags: the flags groups leave the text and the list of the last one is kept. */
    method ParseFlags()
      modifies this
      ensures innerText == FlagsScan(old(innerText), 0).0
      ensures flags == if FlagsScan(old(innerText), 0).1.Some? then FlagsScan(old(innerText), 0).1 else old(flags)
      ensures theParsed == old(theParsed) && childrens == old(childrens) && tagsMemo == old(tagsMemo)
    {
      var fl := FlagsScan(innerText, 0);
      innerText := fl.0;
      if fl.1.Some? {
        flags := fl.1;
      }
    }

    /** parse_statements: every loop and ife becomes an anchor and a token. */
    method ParseStatements(first: nat) returns (next: nat)
      modifies this
      ensures var o := StmtScan(env, old(innerText), 0, first);
              && innerText == o.text && theParsed == old(theParsed) + o.tokens
              && childrens == old(childrens) + o.children && next == o.next
      ensures flags == old(flags) && tagsMemo == old(tagsMemo)
      ensures |old(theParsed)| <= |theParsed| && NoInclusionFrom(theParsed, |old(theParsed)|, old(theParsed))
    {
      var o := StmtScan(env, innerText, 0, first);
      innerText := o.text;
      theParsed := theParsed + o.tokens;
      childrens := childrens + o.children;
      next := o.next;
    }

    /** One `gsub!` of parse_expressions, parse_url_builder or parse_templates. */
    method ScanStage(st: Stage, first: nat) returns (next: nat)
      requires st != Statements
      modifies this
      ensures var o := Scan(env, st, old(innerText), 0, first);
              && innerText == o.text && theParsed == old(theParsed) + o.tokens
              && childrens == old(childrens) + o.children && next == o.next
      ensures flags == old(flags) && tagsMemo == old(tagsMemo)
      ensures |old(theParsed)| <= |theParsed| && (st != Templates ==> NoInclusionFrom(theParsed, |old(theParsed)|, old(theParsed)))
    {
      var o := Scan(env, st, innerText, 0, first);
      innerText := o.text;
      theParsed := theParsed + o.tokens;
      childrens := childrens + o.children;
      next := o.next;
    }

    /** parse!: flags, then, when bindable, statements, meta and var, then url and api, then
        the inclusions. The memo is left as it is (parse! clears an unused `@tags`). */
    method Parse(first: nat) returns (next: nat)
      modifies this
      ensures var r := ParseText(env, bindable, old(innerText), first);
              && innerText == r.0.text && theParsed == old(theParsed) + r.0.tokens
              && childrens == old(childrens) + r.0.children && next == r.1
              && flags == (if r.0.flags.Some? then r.0.flags else old(flags))
      ensures tagsMemo == old(tagsMemo)
      ensures old(tagsMemo).None? ==> Valid()
    {
      ghost var t0, ts0, cs0 := innerText, theParsed, childrens;
      ParseFlags();
      ghost var fl := FlagsScan(t0, 0);
      ghost var o1, o2, o3 := Out(fl.0, [], [], first), Out(fl.0, [], [], first), Out(fl.0, [], [], first);
      next := first;
      if bindable {
        o1 := StmtScan(env, innerText, 0, next);
        next := ParseStatements(next);
        o2 := Scan(env, Metas, innerText, 0, next);
        next := ScanStage(Metas, next);
        o3 := Scan(env, Vars, innerText, 0, next);
        next := ScanStage(Vars, next);
        Assoc3(ts0, o1.tokens, o2.tokens);
        Assoc3(ts0, o1.tokens + o2.tokens, o3.tokens);
        Assoc3(cs0, o1.children, o2.children);
        Assoc3(cs0, o1.children + o2.children, o3.children);
      } else {
        assert ts0 + o1.tokens + o2.tokens + o3.tokens == ts0;
        assert cs0 + o1.children + o2.children + o3.children == cs0;
      }
      assert theParsed == ts0 + (o1.tokens + o2.tokens + o3.tokens);
      assert childrens == cs0 + (o1.children + o2.children + o3.children);
      ghost var tok, kids := o1.tokens + o2.tokens + o3.tokens, o1.children + o2.children + o3.children;
      ghost var o4 := Scan(env, Urls, innerText, 0, next);
      next := ScanStage(Urls, next);
      Assoc3(ts0, tok, o4.tokens);
      Assoc3(cs0, kids, o4.children);
      tok, kids := tok + o4.tokens, kids + o4.children;
      ghost var o5 := Scan(env, Apis, innerText, 0, next);
      next := ScanStage(Apis, next);
      Assoc3(ts0, tok, o5.tokens);
      Assoc3(cs0, kids, o5.children);
      tok, kids := tok + o5.tokens, kids + o5.children;
      ghost var o6 := Scan(env, Templates, innerText, 0, next);
      next := ScanStage(Templates, next);
      Assoc3(ts0, tok, o6.tokens);
      Assoc3(cs0, kids, o6.children);
    }

    /** parse! as written: the stages before parse_templates run, then `RIG_TEMPLATES.values`
        asks a Regexp for `values` and raises, so no inclusion token is ever made. */
    method ParseAsWritten(first: nat) returns (r: Result<nat, Err>)
      modifies this
      ensures r == Failure(NoMethod("values"))
      ensures |old(theParsed)| <= |theParsed| && NoInclusionFrom(theParsed, |old(theParsed)|, old(theParsed))
    {
      ghost var ts0 := theParsed;
      ParseFlags();
      var next := first;
      if bindable {
        next := ParseStatements(next);
        ghost var ts1 := theParsed;
        next := ScanStage(Metas, next);
        NoInclusionTrans(theParsed, ts1, ts0);
        ghost var ts2 := theParsed;
        next := ScanStage(Vars, next);
        NoInclusionTrans(theParsed, ts2, ts0);
      }
      ghost var ts3 := theParsed;
      next := ScanStage(Urls, next);
      NoInclusionTrans(theParsed, ts3, ts0);
      ghost var ts4 := theParsed;
      next := ScanStage(Apis, next);
      NoInclusionTrans(theParsed, ts4, ts0);
      return Failure(NoMethod("values"));
    }

    /** attribute_tags, memoised: the first call computes and keeps them. */
    method AttributeTagsOnce() returns (tags: seq<string>)
      requires Valid()
      modifies this`tagsMemo
      ensures tags == AttributeTags(env.fam, Snapshot())
      ensures tagsMemo == Some(tags) && Valid()
    {
      if tagsMemo.None? {
        tagsMemo := Some(AttributeTags(env.fam, Snapshot()));
      }
      tags := tagsMemo.value;
    }

    /** `ParserNext.new(text, bindable: b).parse!`: a fresh parser holding the parse of the text. */
    static method ParseNew(env: Env, text: string, bindable: bool, first: nat) returns (p: ParserNext, next: nat)
      ensures fresh(p) && p.env == env && p.bindable == bindable && p.Valid()
      ensures var o := ParseText(env, bindable, text, first);
              p.Snapshot() == o.0 && next == o.1
    {
      p := new ParserNext(env, text, Some(bindable), None);
      next := p.Parse(first);
      ghost var o := ParseText(env, bindable, text, first);
      assert [] + o.0.tokens == o.0.tokens;
      assert [] + o.0.children == o.0.children;
      assert p.flags == o.0.flags;
    }

    /** render: a copy of the text with each token's anchor replaced, in list order, by the
        token's rendering; the parser itself is not changed. */
    method Render(ctx: Context, b: Value, fuel: nat) returns (r: Rendering)
      ensures r == RenderParsed(env.fam, ctx, Snapshot(), b, fuel)
    {
      var p := Snapshot();
      var text := innerText;
      var k := 0;
      while k < |theParsed|
        invariant k <= |theParsed| && p == Snapshot()
        invariant RenderFrom(env.fam, ctx, p, b, text, k, fuel) == RenderParsed(env.fam, ctx, p, b, fuel)
      {
        var v := RenderToken(env.fam, ctx, p, k, b, fuel);
        if v.Failure? {
          return Failure(v.error);
        }
        text := Replace(text, Anchor(env.fam, theParsed[k].oid), v.value);
        k := k + 1;
      }
      return Success(text);
    }
  }

  /** `ts` extends `pre`, and no token after it is an inclusion. */
  predicate NoInclusionFrom(ts: seq<Token>, n: nat, pre: seq<Token>) {
    n == |pre| && n <= |ts| && ts[..n] == pre && forall k :: n <= k < |ts| ==> StageOf(ts[k]) != Templates
  }

  lemma NoInclusionTrans(c: seq<Token>, b: seq<Token>, a: seq<Token>)
    requires NoInclusionFrom(c, |b|, b) && (NoInclusionFrom(b, |a|, a) || b == a)
    ensures NoInclusionFrom(c, |a|, a)
  {
    assert c[..|a|] == b[..|a|];
  }

  lemma Assoc3<T>(a: seq<T>, b: seq<T>, c: seq<T>)
    ensures a + b + c == a + (b + c)
  {
  }
}
