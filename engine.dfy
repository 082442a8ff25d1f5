/** lib/tzispa/rig/engine.rb: the application's template engine. With its cache on, a
    template is kept under `<type>__<name>`, made on the first request, reloaded in place
    when its file has changed, and handed out as a `dup` carrying the request's params;
    with the cache off, every request builds, loads and parses a template of its own. */
module Engines {
  import opened Wrappers
  import opened Values
  import opened TokenTree
  import opened Params
  import opened Templates

  /** The cache key: kind and name only; domain and format play no part. */
  function EngineKey(rigType: string, name: string): (k: string)
    ensures |k| == |rigType| + 2 + |name| && k[..|rigType|] == rigType && k[|rigType| + 2..] == name
  {
    rigType + "__" + name
  }

  /** The identity a request gives a new template. */
  function RequestIdent(domain: Domain, name: string, rigType: string, format: Option<string>, parent: Option<(Option<Domain>, string)>, params: Option<string>): Result<Ident, Err> {
    Identify(name, rigType, Some(domain), parent, format, params)
  }

  /** The uncached branch as written: `format: format` calls Kernel#format with no
      arguments, which raises before a template is made. */
  function UncachedAsWritten(domain: Domain, name: string, rigType: string, format: Option<string>,
                             parent: Option<(Option<Domain>, string)>, params: Option<string>): (r: Result<Ident, Err>)
    ensures r == Failure(ArgumentError("too few arguments"))
  {
    Failure(ArgumentError("too few arguments"))
  }

  /** Every request fails as written where, with the format it was given, a template of a
      known kind and well-formed params gets its identity. */
  lemma UncachedFormat(domain: Domain, name: string, k: TemplateKind, format: Option<string>)
    ensures UncachedAsWritten(domain, name, KindName(k), format, None, None).Failure?
    ensures RequestIdent(domain, name, KindName(k), format, None, None).Success?
    ensures format.Some? ==> RequestIdent(domain, name, KindName(k), format, None, None).value.format == format.value
  {
    KindRoundTrip(k);
  }

  class Engine {
    const domain: Domain                  // @app.domain
    const cacheEnabled: bool
    const cacheSize: nat
    var cache: map<string, Template>

    /** Engine.new(app, cache_enabled, cache_size): an empty cache when it is enabled. */
    constructor (domain: Domain, cacheEnabled: bool, cacheSize: nat)
      ensures this.domain == domain && this.cacheEnabled == cacheEnabled && this.cacheSize == cacheSize
      ensures cache == map[] && Valid()
    {
      this.domain := domain;
      this.cacheEnabled := cacheEnabled;
      this.cacheSize := cacheSize;
      cache := map[];
    }

    /** The cached templates and their files. */
    function Masters(): set<object>
      reads this
    {
      (set t | t in cache.Values :: t as object) + (set t | t in cache.Values :: t.src as object)
    }

    /** Every cached template is loaded and parsed; nothing is cached with the cache off. */
    predicate Valid()
      reads this, Masters()
    {
      (!cacheEnabled ==> cache == map[]) && forall t :: t in cache.Values ==> Ready(t)
    }

    /** The cached template under a key and its file: all a request for that key may change. */
    function Slot(key: string): set<object>
      reads this
    {
      if key in cache then {cache[key], cache[key].src} else {}
    }

    /** `@cache.getset(key) { Template.new(...).load!.parse! }`: the cached template, or a
        new one, loaded and parsed, stored under the key; a failed build stores nothing. */
    method GetSet(key: string, name: string, rigType: string, format: Option<string>, parent: Option<Template>,
                  fs: FileSystem, fam: Family, bindable: bool, first: nat)
      returns (r: Result<Template, Err>, next: nat)
      requires Valid() && cacheEnabled
      modifies this
      ensures Valid()
      ensures key in old(cache) ==> cache == old(cache) && r == Success(cache[key]) && next == first
      ensures key !in old(cache) && r.Failure? ==> cache == old(cache)
      ensures key !in old(cache) && r.Success? ==>
                cache == old(cache)[key := r.value] && fresh(r.value) && fresh(r.value.src) && Loaded(r.value, fs)
                && r.value.params.data == []
      ensures key !in old(cache) ==>
                var p := if parent.Some? then Some((Some(parent.value.domain), parent.value.format)) else None;
                var id := RequestIdent(domain, name, rigType, format, p, None);
                (id.Success? && r.Success? ==> r.value.Id() == id.value)
                && (r.Failure? <==> BuildError(id, fs).Some?) && (r.Failure? ==> r.error == BuildError(id, fs).value)
      ensures r.Success? ==> key in cache && r.value == cache[key]
    {
      if key in cache {
        return Success(cache[key]), first;
      }
      var t;
      t, next := Template.Build(name, rigType, Some(domain), parent, format, None, fs, fam, bindable, first);
      if t.Failure? {
        return Failure(t.error), first;
      }
      assert Ready(t.value);
      cache := cache[key := t.value];
      return t, next;
    }

    /** The reload of cache_template: a changed template is loaded and parsed again, in
        place, and stored again under its key. */
    method Refresh(key: string, fs: FileSystem, fam: Family, bindable: bool, first: nat)
      returns (r: Result<Template, Err>, next: nat)
      requires Valid() && key in cache
      modifies cache[key], cache[key].src
      ensures cache == old(cache) && Valid()
      ensures old(cache[key].src.Modified(fs)).Failure? ==> r == Failure(old(cache[key].src.Modified(fs)).error)
      ensures old(cache[key].src.Modified(fs)).Failure? ==> unchanged(cache[key], cache[key].src)
      ensures old(cache[key].src.Modified(fs)) == Success(false) ==> r == Success(cache[key]) && unchanged(cache[key], cache[key].src)
      ensures old(cache[key].src.Modified(fs)) == Success(true) ==> r == Success(cache[key]) && Loaded(cache[key], fs)
      ensures old(cache[key].src.Modified(fs)) == Success(true) ==> fresh(cache[key].parser) && cache[key].params == old(cache[key].params)
      ensures r.Success? ==> cache[key].src.Modified(fs) == Success(false)
    {
      var tpl := cache[key];
      var m := tpl.src.Modified(fs);
      if m.Failure? {
        return Failure(m.error), first;
      }
      if !m.value {
        return Success(tpl), first;
      }
      ghost var others := Masters() - {tpl, tpl.src};
      label Before:
      var p := tpl.LoadParse(fs, fam, bindable, first);
      assert p.Success?;
      assert unchanged@Before(others);
      forall t | t in cache.Values ensures Ready(t) {
        assert t == tpl || (t in others && (t.src in others || t.src == tpl.src));
      }
      LoadedFresh(tpl, fs);
      return Success(tpl), p.value;
    }

    /** rig_template: the cached path when the cache is on, else a template of its own made
        with the given format and params. */
    method RigTemplate(name: string, rigType: string, format: Option<string>, params: Option<string>,
                       parent: Option<Template>, fs: FileSystem, fam: Family, bindable: bool, first: nat)
      returns (r: Result<Template, Err>, next: nat)
      requires Valid()
      modifies this, Slot(EngineKey(rigType, name))
      ensures Valid()
      ensures !cacheEnabled ==> cache == old(cache)
      ensures !cacheEnabled ==>
                var p := if parent.Some? then Some((Some(parent.value.domain), parent.value.format)) else None;
                var id := RequestIdent(domain, name, rigType, format, p, params);
                (id.Success? && r.Success? ==> r.value.Id() == id.value)
                && (r.Failure? <==> BuildError(id, fs).Some?) && (r.Failure? ==> r.error == BuildError(id, fs).value)
      ensures !cacheEnabled && r.Success? ==> fresh(r.value) && Loaded(r.value, fs)
      ensures !cacheEnabled && r.Success? && params.Some? ==> r.value.params.data == SetData([], params.value, ",", "=").0
      ensures cacheEnabled ==> CacheOutcome(EngineKey(rigType, name), old(cache), old(Stamp(EngineKey(rigType, name), fs)),
                                            name, rigType, format, parent, params, fs, r)
      ensures var key := EngineKey(rigType, name);
              cacheEnabled && key in old(cache) && old(cache[key].src.Modified(fs)) != Success(true) ==>
                unchanged(cache[key], cache[key].src)
      ensures var key := EngineKey(rigType, name);
              cacheEnabled && key in old(cache) && old(cache[key].src.Modified(fs)) == Success(true) ==>
                Loaded(cache[key], fs) && cache[key] == old(cache[key]) && cache[key].params == old(cache[key].params)
      ensures var key := EngineKey(rigType, name);
              cacheEnabled && key !in old(cache) && key in cache ==> fresh(cache[key]) && Loaded(cache[key], fs)
      ensures cacheEnabled && r.Success? ==> EngineKey(rigType, name) in cache
      ensures cacheEnabled && r.Success? ==> fresh(r.value) && Copies(r.value, cache[EngineKey(rigType, name)])
      ensures cacheEnabled && r.Success? ==> cache[EngineKey(rigType, name)].src.Modified(fs) == Success(false)
      ensures cacheEnabled && r.Success? && params.None? ==> r.value.params == cache[EngineKey(rigType, name)].params
      ensures cacheEnabled && r.Success? && params.Some? ==> r.value.params.data == SetData([], params.value, ",", "=").0
      ensures r.Success? ==> Ready(r.value)
    {
      if !cacheEnabled {
        r, next := Template.Build(name, rigType, Some(domain), parent, format, params, fs, fam, bindable, first);
        return;
      }
      r, next := CacheTemplate(name, rigType, format, parent, params, fs, fam, bindable, first);
    }

    /** What `modified?` answers for the cached template under a key, when there is one. */
    function Stamp(key: string, fs: FileSystem): Result<bool, Err>
      reads this, Slot(key)
    {
      if key in cache then cache[key].src.Modified(fs) else Success(false)
    }

    /** When a cached request fails, and with what: a cached template whose file is gone
        raises ENOENT, a missing one raises what its build raises, and either way bad params
        fail the `dup`; the cache gains the new template when the build succeeds. */
    predicate CacheOutcome(key: string, before: map<string, Template>, stamp: Result<bool, Err>, name: string,
                           rigType: string, format: Option<string>, parent: Option<Template>, params: Option<string>,
                           fs: FileSystem, r: Result<Template, Err>)
      reads this
    {
      var p := if parent.Some? then Some((Some(parent.value.domain), parent.value.format)) else None;
      var e := BuildError(RequestIdent(domain, name, rigType, format, p, None), fs);
      && (key in before ==> cache == before
                            && (r.Failure? <==> stamp.Failure? || ParamsError(params).Some?)
                            && (stamp.Failure? ==> r == Failure(stamp.error))
                            && (stamp.Success? && r.Failure? ==> r == Failure(ParamsError(params).value)))
      && (key !in before ==> (r.Failure? <==> e.Some? || ParamsError(params).Some?)
                             && (e.Some? ==> r == Failure(e.value) && cache == before)
                             && (e.None? ==> key in cache && cache == before[key := cache[key]])
                             && (e.None? && r.Failure? ==> r == Failure(ParamsError(params).value)))
    }

    /** cache_template: getset, then the reload when the template has changed, then a `dup`
        with the params set on it when they are given. */
    method CacheTemplate(name: string, rigType: string, format: Option<string>, parent: Option<Template>,
                         params: Option<string>, fs: FileSystem, fam: Family, bindable: bool, first: nat)
      returns (r: Result<Template, Err>, next: nat)
      requires Valid() && cacheEnabled
      modifies this, Slot(EngineKey(rigType, name))
      ensures Valid()
      ensures CacheOutcome(EngineKey(rigType, name), old(cache), old(Stamp(EngineKey(rigType, name), fs)),
                           name, rigType, format, parent, params, fs, r)
      ensures var key := EngineKey(rigType, name);
              key in old(cache) && old(cache[key].src.Modified(fs)) == Success(false) ==>
                unchanged(cache[key], cache[key].src)
      ensures var key := EngineKey(rigType, name);
              key in old(cache) && old(cache[key].src.Modified(fs)).Failure? ==>
                unchanged(cache[key], cache[key].src)
      ensures var key := EngineKey(rigType, name);
              key in old(cache) && old(cache[key].src.Modified(fs)) == Success(true) ==>
                Loaded(cache[key], fs) && cache[key] == old(cache[key]) && cache[key].params == old(cache[key].params)
      ensures var key := EngineKey(rigType, name);
              key !in old(cache) && key in cache ==> fresh(cache[key]) && Loaded(cache[key], fs)
      ensures var key := EngineKey(rigType, name);
              r.Success? ==> key in cache && fresh(r.value) && Copies(r.value, cache[key]) && Ready(r.value)
                             && cache[key].src.Modified(fs) == Success(false)
      ensures var key := EngineKey(rigType, name);
              r.Success? && params.None? ==> r.value.params == cache[key].params
      ensures r.Success? && params.Some? ==> r.value.params.data == SetData([], params.value, ",", "=").0
    {
      var key := EngineKey(rigType, name);
      ghost var ms := Masters();
      var g;
      g, next := GetSet(key, name, rigType, format, parent, fs, fam, bindable, first);
      if g.Failure? {
        return Failure(g.error), next;
      }
      assert key in cache && g.value == cache[key];
      if key in old(cache) {
        assert g.value in old(cache).Values;
        assert g.value in ms && g.value.src in ms;
      } else {
        LoadedFresh(g.value, fs);
      }
      var t;
      t, next := Refresh(key, fs, fam, bindable, next);
      if t.Failure? {
        return Failure(t.error), next;
      }
      assert t.value in cache.Values;
      r := t.value.Dup(params);
    }

    /** layout: rig_template for a layout, with no parent. */
    method Layout(name: string, format: Option<string>, params: Option<string>,
                  fs: FileSystem, fam: Family, bindable: bool, first: nat)
      returns (r: Result<Template, Err>, next: nat)
      requires Valid()
      modifies this, Slot(EngineKey("layout", name))
      ensures Valid() && (r.Success? ==> fresh(r.value) && Ready(r.value))
    {
      r, next := RigTemplate(name, "layout", format, params, None, fs, fam, bindable, first);
    }

    /** block: rig_template for a block. */
    method Block(name: string, format: Option<string>, params: Option<string>, parent: Option<Template>,
                 fs: FileSystem, fam: Family, bindable: bool, first: nat)
      returns (r: Result<Template, Err>, next: nat)
      requires Valid()
      modifies this, Slot(EngineKey("block", name))
      ensures Valid() && (r.Success? ==> fresh(r.value) && Ready(r.value))
    {
      r, next := RigTemplate(name, "block", format, params, parent, fs, fam, bindable, first);
    }

    /** static: rig_template for a static. */
    method Static(name: string, format: Option<string>, params: Option<string>, parent: Option<Template>,
                  fs: FileSystem, fam: Family, bindable: bool, first: nat)
      returns (r: Result<Template, Err>, next: nat)
      requires Valid()
      modifies this, Slot(EngineKey("static", name))
      ensures Valid() && (r.Success? ==> fresh(r.value) && Ready(r.value))
    {
      r, next := RigTemplate(name, "static", format, params, parent, fs, fam, bindable, first);
    }
  }
}
