/** lib/tzispa/rig/factory.rb: the process-wide cache of loaded and parsed templates. A
    request is looked up by `<domain name>/<type>/<name>/<content type>`; a missing, stale or
    invalid master is rebuilt and stored, and the caller always gets a `dup` of the master,
    with the request's params set on the copy only. */
module Factories {
  import opened Wrappers
  import opened Values
  import opened TokenTree
  import opened Params
  import opened Templates

  /** The cache key of a request. */
  function FactoryKey(domain: Domain, rigType: string, name: string, contentType: string): string {
    domain.name + "/" + rigType + "/" + name + "/" + contentType
  }

  /** What get_template does with a request: hand out the cached master, build a new one,
      or raise from the master's staleness check. */
  datatype Decision = Reuse | Rebuild | Fail(e: Err)

  /** A master is reused only when it is there, not stale and valid. */
  function Decide(present: bool, stale: Result<bool, Err>, valid: bool): (d: Decision)
    ensures d == Reuse <==> present && stale == Success(false) && valid
    ensures d.Fail? <==> present && stale.Failure?
    ensures d.Fail? ==> d.e == stale.error
  {
    if !present then Rebuild
    else if stale.Failure? then Fail(stale.error)
    else if stale.value || !valid then Rebuild
    else Reuse
  }

  /** The identity set_template gives a new master: the content type is its format. */
  function MasterIdent(name: string, domain: Domain, rigType: string, contentType: string): (r: Result<Ident, Err>)
    ensures r.Success? <==> KindOf(rigType).Success?
    ensures r.Success? ==> r.value.domain == domain && r.value.format == contentType
    ensures r.Success? ==> KindName(r.value.kind) == rigType && (r.value.subdomain, r.value.name) == NameParts(name)
  {
    Identify(name, rigType, Some(domain), None, Some(contentType), None)
  }

  /** set_template as written: Template.new takes no `content_type:` keyword, so every
      build raises and nothing is ever stored. */
  function MasterIdentAsWritten(name: string, domain: Domain, rigType: string, contentType: string): (r: Result<Ident, Err>)
    ensures r == Failure(ArgumentError("unknown keyword: :content_type"))
  {
    Failure(ArgumentError("unknown keyword: :content_type"))
  }

  /** For every kind, the written build fails where the meant one succeeds. */
  lemma ContentTypeKeyword(name: string, domain: Domain, k: TemplateKind, contentType: string)
    ensures MasterIdentAsWritten(name, domain, KindName(k), contentType).Failure?
    ensures MasterIdent(name, domain, KindName(k), contentType).Success?
  {
    KindRoundTrip(k);
  }

  /** TemplateBase, what `Factory.empty` makes: a template with nothing in it. */
  class TemplateBase {
    constructor ()
    {
    }
  }

  /** The Factory singleton and its cache. */
  class Factory {
    var cache: map<string, Template>

    constructor ()
      ensures cache == map[] && Valid()
    {
      cache := map[];
    }

    /** The masters and their files. */
    function Masters(): set<object>
      reads this
    {
      (set t | t in cache.Values :: t as object) + (set t | t in cache.Values :: t.src as object)
    }

    /** Every master in the cache is loaded and parsed. */
    predicate Valid()
      reads this, Masters()
    {
      forall t :: t in cache.Values ==> Ready(t)
    }

    /** What get_template decides for a key; `valid` is the master's `valid?`. */
    function DecisionFor(key: string, fs: FileSystem, valid: bool): Decision
      reads this, Masters()
    {
      Decide(key in cache, if key in cache then cache[key].src.Modified(fs) else Success(true), valid)
    }

    /** empty: a new TemplateBase; the cache is not touched. */
    static method Empty() returns (t: TemplateBase)
      ensures fresh(t)
    {
      t := new TemplateBase();
    }

    /** set_template: build, load and parse a master and store it under the key. */
    method SetTemplate(key: string, name: string, domain: Domain, rigType: string, contentType: string,
                       fs: FileSystem, fam: Family, bindable: bool, first: nat)
      returns (r: Result<Template, Err>, next: nat)
      requires Valid()
      modifies this
      ensures Valid()
      ensures r.Failure? ==> cache == old(cache)
      ensures r.Success? ==> cache == old(cache)[key := r.value] && fresh(r.value) && Loaded(r.value, fs)
      ensures r.Success? ==> MasterIdent(name, domain, rigType, contentType) == Success(r.value.Id())
      ensures var e := BuildError(MasterIdent(name, domain, rigType, contentType), fs);
              (r.Failure? <==> e.Some?) && (r.Failure? ==> r.error == e.value)
    {
      var t;
      t, next := Template.Build(name, rigType, Some(domain), None, Some(contentType), None, fs, fam, bindable, first);
      if t.Failure? {
        return Failure(t.error), first;
      }
      var tpl := t.value;
      assert Ready(tpl);
      cache := cache[key := tpl];
      return Success(tpl), next;
    }

    /** get_template: the cached master when it is present, not stale and valid; else a new one. */
    method GetTemplate(key: string, name: string, domain: Domain, rigType: string, contentType: string,
                       valid: bool, fs: FileSystem, fam: Family, bindable: bool, first: nat)
      returns (r: Result<Template, Err>, next: nat)
      requires Valid()
      modifies this
      ensures Valid()
      ensures r.Success? ==> key in cache && r.value == cache[key]
      ensures old(DecisionFor(key, fs, valid)) == Reuse ==> cache == old(cache) && r == Success(old(cache)[key])
      ensures old(DecisionFor(key, fs, valid)).Fail? ==> cache == old(cache) && r == Failure(old(DecisionFor(key, fs, valid)).e)
      ensures old(DecisionFor(key, fs, valid)) == Rebuild && r.Success? ==>
                cache == old(cache)[key := r.value] && fresh(r.value) && Loaded(r.value, fs)
                && MasterIdent(name, domain, rigType, contentType) == Success(r.value.Id())
      ensures old(DecisionFor(key, fs, valid)) == Rebuild && r.Failure? ==> cache == old(cache)
      ensures old(DecisionFor(key, fs, valid)) == Rebuild ==>
                var e := BuildError(MasterIdent(name, domain, rigType, contentType), fs);
                (r.Failure? <==> e.Some?) && (r.Failure? ==> r.error == e.value)
    {
      if key in cache {
        var m := cache[key].src.Modified(fs);
        if m.Failure? {
          return Failure(m.error), first;
        }
        if !m.value && valid {
          return Success(cache[key]), first;
        }
      }
      r, next := SetTemplate(key, name, domain, rigType, contentType, fs, fam, bindable, first);
    }

    /** rig_template and cache_template: the master for the request, duplicated, with the
        params (when given) set on the duplicate alone. */
    method RigTemplate(name: string, domain: Domain, rigType: string, contentType: string, params: Option<string>,
                       valid: bool, fs: FileSystem, fam: Family, bindable: bool, first: nat)
      returns (r: Result<Template, Err>, next: nat)
      requires Valid()
      modifies this
      ensures Valid()
      ensures var key := FactoryKey(domain, rigType, name, contentType);
              old(DecisionFor(key, fs, valid)) == Reuse ==> cache == old(cache)
      ensures var key := FactoryKey(domain, rigType, name, contentType);
              old(DecisionFor(key, fs, valid)).Fail? ==> cache == old(cache) && r == Failure(old(DecisionFor(key, fs, valid)).e)
      ensures var key := FactoryKey(domain, rigType, name, contentType);
              var e := BuildError(MasterIdent(name, domain, rigType, contentType), fs);
              old(DecisionFor(key, fs, valid)) == Rebuild && e.None? ==>
                key in cache && cache == old(cache)[key := cache[key]] && fresh(cache[key]) && Loaded(cache[key], fs)
                && MasterIdent(name, domain, rigType, contentType) == Success(cache[key].Id())
      ensures var key := FactoryKey(domain, rigType, name, contentType);
              var e := BuildError(MasterIdent(name, domain, rigType, contentType), fs);
              old(DecisionFor(key, fs, valid)) == Rebuild && e.Some? ==> cache == old(cache)
      ensures var key := FactoryKey(domain, rigType, name, contentType);
              r.Success? ==> key in cache && fresh(r.value) && fresh(r.value.src) && Copies(r.value, cache[key])
                             && Ready(r.value)
      ensures var key := FactoryKey(domain, rigType, name, contentType);
              r.Success? && params.None? ==> r.value.params == cache[key].params
      ensures r.Success? && params.Some? ==> fresh(r.value.params) && r.value.params.data == SetData([], params.value, ",", "=").0
      ensures var key := FactoryKey(domain, rigType, name, contentType);
              old(DecisionFor(key, fs, valid)) == Reuse ==> (r.Failure? <==> ParamsError(params).Some?)
      ensures var key := FactoryKey(domain, rigType, name, contentType);
              var e := BuildError(MasterIdent(name, domain, rigType, contentType), fs);
              old(DecisionFor(key, fs, valid)) == Rebuild ==>
                (r.Failure? <==> e.Some? || ParamsError(params).Some?) && (e.Some? ==> r == Failure(e.value))
      ensures var key := FactoryKey(domain, rigType, name, contentType);
              var e := BuildError(MasterIdent(name, domain, rigType, contentType), fs);
              var d := old(DecisionFor(key, fs, valid));
              r.Failure? && (d == Reuse || (d == Rebuild && e.None?)) ==> r == Failure(ParamsError(params).value)
      ensures r.Success? ==> DecisionFor(FactoryKey(domain, rigType, name, contentType), fs, true) == Reuse
    {
      var key := FactoryKey(domain, rigType, name, contentType);
      var m;
      m, next := GetTemplate(key, name, domain, rigType, contentType, valid, fs, fam, bindable, first);
      if m.Failure? {
        return Failure(m.error), next;
      }
      assert m.value in cache.Values;
      r := m.value.Dup(params);
    }

    /** layout: rig_template for a layout. */
    method Layout(name: string, domain: Domain, contentType: string, params: Option<string>,
                  valid: bool, fs: FileSystem, fam: Family, bindable: bool, first: nat)
      returns (r: Result<Template, Err>, next: nat)
      requires Valid()
      modifies this
      ensures Valid() && (r.Success? ==> fresh(r.value) && Ready(r.value))
    {
      r, next := RigTemplate(name, domain, "layout", contentType, params, valid, fs, fam, bindable, first);
    }

    /** block: rig_template for a block. */
    method Block(name: string, domain: Domain, contentType: string, params: Option<string>,
                 valid: bool, fs: FileSystem, fam: Family, bindable: bool, first: nat)
      returns (r: Result<Template, Err>, next: nat)
      requires Valid()
      modifies this
      ensures Valid() && (r.Success? ==> fresh(r.value) && Ready(r.value))
    {
      r, next := RigTemplate(name, domain, "block", contentType, params, valid, fs, fam, bindable, first);
    }

    /** static: rig_template for a static. */
    method Static(name: string, domain: Domain, contentType: string, params: Option<string>,
                  valid: bool, fs: FileSystem, fam: Family, bindable: bool, first: nat)
      returns (r: Result<Template, Err>, next: nat)
      requires Valid()
      modifies this
      ensures Valid() && (r.Success? ==> fresh(r.value) && Ready(r.value))
    {
      r, next := RigTemplate(name, domain, "static", contentType, params, valid, fs, fam, bindable, first);
    }
  }

  /** Two requests in a row for the same template, with nothing changed on disk and the
      master answering `valid?`: when the first succeeds, the second reuses its master, so both copies share one parser, and the
      second fails only on its params. */
  method SecondRequestReuses(f: Factory, name: string, domain: Domain, rigType: string, contentType: string,
                             params: Option<string>, fs: FileSystem, fam: Family, bindable: bool, first: nat)
    returns (r1: Result<Template, Err>, r2: Result<Template, Err>, next: nat)
    requires f.Valid()
    modifies f
    ensures f.Valid()
    ensures r1.Success? ==> (r2.Success? <==> ParamsError(params).None?)
    ensures r1.Success? && r2.Success? ==> r2.value.parser == r1.value.parser && r2.value.Id() == r1.value.Id()
  {
    r1, next := f.RigTemplate(name, domain, rigType, contentType, params, true, fs, fam, bindable, first);
    ghost var key := FactoryKey(domain, rigType, name, contentType);
    ghost var master := if key in f.cache then f.cache[key] else null;
    r2, next := f.RigTemplate(name, domain, rigType, contentType, params, true, fs, fam, bindable, next);
    if r1.Success? {
      assert f.cache[key] == master;
    }
  }
}
