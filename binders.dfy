/** The binders of lib/tzispa/rig/binder.rb and lib/tzispa/rig/template_binder.rb: the object a
    template is rendered against. A binder's `data` is a Struct whose members are the parser's
    attribute tags; a loop binder is a binder over one loop token, whose items are fresh structs
    of the loop body's tags. A struct is a map from every member to its value (Nil until set);
    a LoopItem renders as `Record(fields)` and a bound LoopBinder as `Looper(items)`. */
module Binders {
  import opened Wrappers
  import opened Seqs
  import opened Values
  import opened TokenTree

  type Params = seq<(string, Value)>

  /** `data_struct.new`: every member present and nil. */
  function EmptyRecord(members: seq<string>): (r: map<string, Value>)
    ensures r.Keys == set m | m in members
    ensures forall m :: m in r ==> r[m] == Nil
  {
    map m | m in members :: Nil
  }

  /** The keys of some parameters, in order. */
  function KeysOf(params: Params): (r: seq<string>)
    ensures |r| == |params| && forall k :: 0 <= k < |params| ==> r[k] == params[k].0
  {
    if params == [] then [] else [params[0].0] + KeysOf(params[1..])
  }

  // ---------------------------------------------------------------- strict assignment

  /** `params.each { |k, v| raise UnknownTag unless tags.include? k; d[k] = v }`: the struct after
      the loop, and the error that stopped it, if any. */
  function StrictAssign(d: map<string, Value>, members: seq<string>, params: Params): (map<string, Value>, Option<Err>)
    decreases |params|
  {
    if params == [] then (d, None)
    else if params[0].0 !in members then (d, Some(UnknownTag(params[0].0)))
    else StrictAssign(d[params[0].0 := params[0].1], members, params[1..])
  }

  lemma StrictStep(d: map<string, Value>, members: seq<string>, params: Params)
    requires |params| > 0 && params[0].0 in members
    ensures StrictAssign(d, members, params) == StrictAssign(d[params[0].0 := params[0].1], members, params[1..])
  {
  }

  /** Strict assignment raises exactly when some key is not a member, and then it names the
      first such key, with every parameter before it already assigned. */
  lemma {:induction false} StrictFailsAtFirstUnknown(d: map<string, Value>, members: seq<string>, params: Params, j: nat)
    requires j < |params| && params[j].0 !in members
    requires forall k :: 0 <= k < j ==> params[k].0 in members
    ensures StrictAssign(d, members, params) == (StrictAssign(d, members, params[..j]).0, Some(UnknownTag(params[j].0)))
    decreases j
  {
    if j > 0 {
      StrictStep(d, members, params);
      StrictStep(d, members, params[..j]);
      assert params[..j][1..] == params[1..][..j - 1];
      StrictFailsAtFirstUnknown(d[params[0].0 := params[0].1], members, params[1..], j - 1);
    }
  }

  /** With every key a member, strict assignment does not raise, keeps the struct's members and
      leaves each member either as it was or at the value of its last parameter. */
  lemma {:induction false} StrictSucceeds(d: map<string, Value>, members: seq<string>, params: Params)
    requires forall k :: 0 <= k < |params| ==> params[k].0 in members
    requires d.Keys == set m | m in members
    ensures var r := StrictAssign(d, members, params);
            && r.1.None? && r.0.Keys == d.Keys
            && forall m :: m in d && m !in KeysOf(params) ==> r.0[m] == d[m]
    decreases |params|
  {
    if params != [] {
      StrictStep(d, members, params);
      StrictSucceeds(d[params[0].0 := params[0].1], members, params[1..]);
      assert KeysOf(params) == [params[0].0] + KeysOf(params[1..]);
    }
  }

  /** The last parameter for a key wins. */
  lemma {:induction false} StrictLastWins(d: map<string, Value>, members: seq<string>, params: Params)
    requires |params| > 0 && forall k :: 0 <= k < |params| ==> params[k].0 in members
    ensures var last := params[|params| - 1];
            last.0 in StrictAssign(d, members, params).0 && StrictAssign(d, members, params).0[last.0] == last.1
    decreases |params|
  {
    StrictStep(d, members, params);
    if |params| == 1 {
      assert params[1..] == [];
    } else {
      assert params[1..][|params[1..]| - 1] == params[|params| - 1];
      StrictLastWins(d[params[0].0 := params[0].1], members, params[1..]);
    }
  }

  // ---------------------------------------------------------------- loop binders

  /** A LoopBinder: a binder over one loop token, so its struct has the loop body's tags. */
  datatype LoopBinder = LoopBinder(loop: Token, members: seq<string>)

  /** `loop_binder(loop_id)`: the loops `loop_parser` finds must be exactly one. */
  function LoopBinderFor(fam: Family, p: Parsed, id: string): (r: Result<LoopBinder, Err>)
    ensures r.Success? <==> |LoopParser(p, id)| == 1
    ensures |LoopParser(p, id)| == 0 ==> r == Failure(UnknownTag(id))
    ensures |LoopParser(p, id)| > 1 ==> r == Failure(DuplicatedLoop(id))
    ensures r.Success? ==> r.value.loop == LoopParser(p, id)[0] && r.value.loop.Loop?
    ensures r.Success? ==> r.value.members == AttributeTags(fam, r.value.loop.body)
    ensures r.Success? ==> r.value.loop.id == id && Visible(p, r.value.loop)
  {
    var found := LoopParser(p, id);
    assert forall u :: u in found ==> u.Loop? && u.id == id by {
      forall u | u in found ensures u.Loop? && u.id == id {
        LoopParserMembers(p, id, u);
      }
    }
    if |found| == 0 then Failure(UnknownTag(id))
    else if |found| > 1 then Failure(DuplicatedLoop(id))
    else
      assert found[0] in found;
      LoopParserMembers(p, id, found[0]);
      Success(LoopBinder(found[0], AttributeTags(fam, found[0].body)))
  }

  /** loop_binder as written: `unknown?` and `duplicated?` ask the Array `loop_parser` for an
      `id` it lacks, so the check that should raise UnknownTag or DuplicatedLoop raises
      NoMethodError instead; with exactly one loop they pass. */
  function LoopBinderForAsWritten(fam: Family, p: Parsed, id: string): (r: Result<LoopBinder, Err>)
    ensures r.Failure? ==> r.error == NoMethod("id")
  {
    var found := LoopParser(p, id);
    if |found| != 1 then Failure(NoMethod("id")) else LoopBinderFor(fam, p, id)
  }

  /** Both versions accept the same ids with the same binder; as written, the two errors read
      NoMethodError. */
  lemma LoopBinderErrors(fam: Family, p: Parsed, id: string)
    ensures LoopBinderForAsWritten(fam, p, id).Success? <==> LoopBinderFor(fam, p, id).Success?
    ensures LoopBinderFor(fam, p, id).Success? ==> LoopBinderForAsWritten(fam, p, id) == LoopBinderFor(fam, p, id)
    ensures LoopBinderFor(fam, p, id).Failure? ==>
              LoopBinderFor(fam, p, id).error in {UnknownTag(id), DuplicatedLoop(id)}
              && LoopBinderForAsWritten(fam, p, id) == Failure(NoMethod("id"))
  {
  }

  /** LoopBinder#loop_item(params): a fresh struct of the binder's members with the given keys
      set; a key that is not a member raises UnknownTag. */
  function LoopItem(lb: LoopBinder, params: Option<Params>): (r: Result<map<string, Value>, Err>)
    ensures r.Failure? ==> params.Some? && r.error.UnknownTag?
  {
    if params.None? then Success(EmptyRecord(lb.members))
    else
      StrictErrorIsUnknown(EmptyRecord(lb.members), lb.members, params.value);
      var a := StrictAssign(EmptyRecord(lb.members), lb.members, params.value);
      if a.1.Some? then Failure(a.1.value) else Success(a.0)
  }

  /** loop_item as written: `raise UnknownTag(...)` calls a method named UnknownTag, which does
      not exist, so an unknown key raises NoMethodError. */
  function LoopItemAsWritten(lb: LoopBinder, params: Option<Params>): (r: Result<map<string, Value>, Err>)
    ensures r.Failure? ==> r.error == NoMethod("UnknownTag")
  {
    var ok := LoopItem(lb, params);
    if ok.Failure? then Failure(NoMethod("UnknownTag")) else ok
  }

  /** The two agree on every item they build, and the written one turns UnknownTag into
      NoMethodError. */
  lemma LoopItemErrors(lb: LoopBinder, params: Params)
    ensures LoopItemAsWritten(lb, Some(params)).Success? <==> LoopItem(lb, Some(params)).Success?
    ensures LoopItem(lb, Some(params)).Success? ==> LoopItemAsWritten(lb, Some(params)) == LoopItem(lb, Some(params))
    ensures LoopItem(lb, Some(params)).Failure? ==>
              LoopItem(lb, Some(params)).error.UnknownTag? && LoopItemAsWritten(lb, Some(params)) == Failure(NoMethod("UnknownTag"))
  {
    StrictErrorIsUnknown(EmptyRecord(lb.members), lb.members, params);
  }

  lemma {:induction false} StrictErrorIsUnknown(d: map<string, Value>, members: seq<string>, params: Params)
    ensures StrictAssign(d, members, params).1.Some? ==> StrictAssign(d, members, params).1.value.UnknownTag?
    decreases |params|
  {
    if params != [] && params[0].0 in members {
      StrictErrorIsUnknown(d[params[0].0 := params[0].1], members, params[1..]);
    }
  }

  /** A loop item has exactly the members of its binder, the given keys at their last values
      and every other member nil; it holds nothing of an earlier item. */
  lemma LoopItemFresh(lb: LoopBinder, params: Params)
    requires forall k :: 0 <= k < |params| ==> params[k].0 in lb.members
    ensures LoopItem(lb, Some(params)).Success?
    ensures var item := LoopItem(lb, Some(params)).value;
            && item.Keys == set m | m in lb.members
            && forall m :: m in item && m !in KeysOf(params) ==> item[m] == Nil
  {
    StrictSucceeds(EmptyRecord(lb.members), lb.members, params);
  }

  /** loop_item as a loop over the parameters, each store into the fresh struct. */
  method MakeLoopItem(lb: LoopBinder, params: Option<Params>) returns (r: Result<map<string, Value>, Err>)
    ensures r == LoopItem(lb, params)
  {
    var item := EmptyRecord(lb.members);
    if params.None? {
      return Success(item);
    }
    var ps := params.value;
    var i := 0;
    while i < |ps|
      invariant i <= |ps|
      invariant StrictAssign(EmptyRecord(lb.members), lb.members, ps) == StrictAssign(item, lb.members, ps[i..])
    {
      assert ps[i..][1..] == ps[i + 1..];
      if ps[i].0 !in lb.members {
        return Failure(UnknownTag(ps[i].0));
      }
      item := item[ps[i].0 := ps[i].1];
      i := i + 1;
    }
    assert ps[i..] == [];
    return Success(item);
  }

  // ---------------------------------------------------------------- lenient attach

  /** `bind_loopitems`'s block: `v.map { |item| loop_item item.symbolize! }`; an item that is
      not a Hash has no `symbolize!`. */
  function ItemsOf(lb: LoopBinder, elems: seq<Value>): (r: Result<seq<Value>, Err>)
    ensures r.Success? ==> |r.value| == |elems| && forall k :: 0 <= k < |elems| ==> r.value[k].Record?
  {
    if elems == [] then Success([])
    else if !elems[0].Hash? then Failure(NoMethod("symbolize!"))
    else match LoopItem(lb, Some(elems[0].entries))
      case Failure(e) => Failure(e)
      case Success(item) =>
        match ItemsOf(lb, elems[1..])
        case Failure(e) => Failure(e)
        case Success(rest) => Success([Record(item)] + rest)
  }

  /** bind_loopitems(k, v): the loop binder of `k`, bound to the items of `v`. */
  function BindLoopItems(fam: Family, p: Parsed, k: string, elems: seq<Value>): (r: Result<Value, Err>)
    ensures r.Success? ==> r.value.Looper? && |r.value.items| == |elems|
    ensures LoopBinderFor(fam, p, k).Failure? ==> r == Failure(LoopBinderFor(fam, p, k).error)
  {
    match LoopBinderFor(fam, p, k)
    case Failure(e) => Failure(e)
    case Success(lb) =>
      match ItemsOf(lb, elems)
      case Failure(e) => Failure(e)
      case Success(items) => Success(Looper(items))
  }

  /** What lenient attach stores for a value: an Enumerable becomes a loop binder over its
      items, a Proc the loop binder it is bound to (`bind!` returns the binder, so `|| v.call`
      is never reached), anything else itself. A Hash enumerates `[key, value]` Arrays, which
      have no `symbolize!`. */
  function Convert(fam: Family, p: Parsed, k: string, v: Value): (r: Result<Value, Err>)
    ensures !(v.List? || v.Hash? || v.Generator?) ==> r == Success(v)
  {
    match v
    case List(elems) => BindLoopItems(fam, p, k, elems)
    case Hash(entries) =>
      if LoopBinderFor(fam, p, k).Failure? then Failure(LoopBinderFor(fam, p, k).error)
      else if entries == [] then Success(Looper([]))
      else Failure(NoMethod("symbolize!"))
    case Generator(items) =>
      if LoopBinderFor(fam, p, k).Failure? then Failure(LoopBinderFor(fam, p, k).error)
      else Success(Looper(items))
    case _ => Success(v)
  }

  /** A value lenient attach stores as it is. */
  predicate Plain(v: Value) {
    !(v.List? || v.Hash? || v.Generator?)
  }

  /** `params.each { |k, v| next unless tags.include? k; d[k] = case v ... }`. */
  function LenientAssign(fam: Family, p: Parsed, d: map<string, Value>, members: seq<string>, params: Params): (map<string, Value>, Option<Err>)
    decreases |params|
  {
    if params == [] then (d, None)
    else if params[0].0 !in members then LenientAssign(fam, p, d, members, params[1..])
    else match Convert(fam, p, params[0].0, params[0].1)
      case Failure(e) => (d, Some(e))
      case Success(w) => LenientAssign(fam, p, d[params[0].0 := w], members, params[1..])
  }

  /** The parameters whose keys are members, in order. */
  function Known(params: Params, members: seq<string>): (r: Params)
    ensures forall k :: 0 <= k < |r| ==> r[k].0 in members
    ensures forall x :: x in r <==> x in params && x.0 in members
  {
    if params == [] then []
    else (if params[0].0 in members then [params[0]] else []) + Known(params[1..], members)
  }

  /** Known keeps the order of the params: filtering the parts of a concatenation and
      concatenating the results is filtering the whole. */
  lemma {:induction false} KnownAppend(a: Params, b: Params, members: seq<string>)
    ensures Known(a + b, members) == Known(a, members) + Known(b, members)
    decreases |a|
  {
    if a == [] {
      assert [] + b == b;
    } else {
      assert (a + b)[0] == a[0] && (a + b)[1..] == a[1..] + b;
      KnownAppend(a[1..], b, members);
    }
  }

  /** For values stored as they are, lenient attach is strict attach on the keys that are tags:
      it drops the others and never raises. */
  lemma {:induction false} LenientIsStrictOnKnown(fam: Family, p: Parsed, d: map<string, Value>, members: seq<string>, params: Params)
    requires forall k :: 0 <= k < |params| ==> Plain(params[k].1)
    ensures LenientAssign(fam, p, d, members, params) == StrictAssign(d, members, Known(params, members))
    ensures LenientAssign(fam, p, d, members, params).1.None?
    decreases |params|
  {
    if params != [] {
      if params[0].0 in members {
        LenientIsStrictOnKnown(fam, p, d[params[0].0 := params[0].1], members, params[1..]);
        assert Known(params, members) == [params[0]] + Known(params[1..], members);
        StrictStep(d, members, Known(params, members));
      } else {
        LenientIsStrictOnKnown(fam, p, d, members, params[1..]);
        assert Known(params, members) == [] + Known(params[1..], members);
        assert Known(params, members) == Known(params[1..], members);
      }
    }
  }

  /** Keys that are not tags are skipped: with none of them a tag, lenient attach changes
      nothing. */
  lemma {:induction false} LenientSkipsUnknown(fam: Family, p: Parsed, d: map<string, Value>, members: seq<string>, params: Params)
    requires forall k :: 0 <= k < |params| ==> params[k].0 !in members
    ensures LenientAssign(fam, p, d, members, params) == (d, None)
    decreases |params|
  {
    if params != [] {
      LenientSkipsUnknown(fam, p, d, members, params[1..]);
    }
  }

  /** attach_json's two passes: the entries that are neither Array nor Hash, then each Array
      entry, in order, as bind_loopitems (which runs before the second attach, so an Array key
      that names no loop raises even when it is not a tag). Hash entries are dropped. */
  function Scalars(entries: Params): (r: Params)
    ensures forall x :: x in r <==> x in entries && !x.1.List? && !x.1.Hash?
  {
    if entries == [] then []
    else (if !entries[0].1.List? && !entries[0].1.Hash? then [entries[0]] else []) + Scalars(entries[1..])
  }

  function ArrayLoops(fam: Family, p: Parsed, entries: Params): (r: Result<Params, Err>)
    ensures r.Success? ==> forall k :: 0 <= k < |r.value| ==> r.value[k].1.Looper?
  {
    if entries == [] then Success([])
    else if !entries[0].1.List? then ArrayLoops(fam, p, entries[1..])
    else match BindLoopItems(fam, p, entries[0].0, entries[0].1.elems)
      case Failure(e) => Failure(e)
      case Success(lb) =>
        match ArrayLoops(fam, p, entries[1..])
        case Failure(e) => Failure(e)
        case Success(rest) => Success([(entries[0].0, lb)] + rest)
  }

  /** The keys of the Array entries, in order. */
  function ArrayKeys(entries: Params): seq<string> {
    if entries == [] then []
    else (if entries[0].1.List? then [entries[0].0] else []) + ArrayKeys(entries[1..])
  }

  /** attach_json's second pass succeeds iff bind_loopitems succeeds for every Array entry,
      and it then binds exactly the Array keys, in order. */
  lemma {:induction false} ArrayLoopsKeys(fam: Family, p: Parsed, entries: Params)
    ensures ArrayLoops(fam, p, entries).Success? <==>
              forall k :: 0 <= k < |entries| && entries[k].1.List? ==> BindLoopItems(fam, p, entries[k].0, entries[k].1.elems).Success?
    ensures var r := ArrayLoops(fam, p, entries);
            r.Success? ==> |r.value| == |ArrayKeys(entries)| && forall k :: 0 <= k < |r.value| ==> r.value[k].0 == ArrayKeys(entries)[k]
    decreases |entries|
  {
    if entries != [] {
      var tail := entries[1..];
      ArrayLoopsKeys(fam, p, tail);
      assert forall k :: 1 <= k < |entries| ==> entries[k] == tail[k - 1];
      if entries[0].1.List? && BindLoopItems(fam, p, entries[0].0, entries[0].1.elems).Success? {
        var r := ArrayLoops(fam, p, entries);
        if r.Success? {
          assert r.value[1..] == ArrayLoops(fam, p, tail).value;
        }
      }
    }
  }

  // ---------------------------------------------------------------- template binders

  /** What `TemplateBinder.for` makes. */
  datatype BinderClass = BinderClass(name: string, isTemplateBinder: bool)
  datatype Made = Generic | Custom(name: string)

  /** TemplateBinder.for: a non-bindable template gets a plain TemplateBinder; a bindable one
      its own binder class (nil when there is none), which must be a TemplateBinder. */
  function For(bindable: bool, cls: Option<BinderClass>): (r: Result<Option<Made>, Err>)
    ensures !bindable ==> r == Success(Some(Generic))
    ensures bindable && cls.None? ==> r == Success(None)
    ensures bindable && cls.Some? ==> (r.Success? <==> cls.value.isTemplateBinder)
    ensures bindable && cls.Some? && r.Success? ==> r.value == Some(Custom(cls.value.name))
    ensures r.Failure? ==> r.error == NotTemplateBinder(cls.value.name)
  {
    if !bindable then Success(Some(Generic))
    else if cls.None? then Success(None)
    else if cls.value.isTemplateBinder then Success(Some(Custom(cls.value.name)))
    else Failure(NotTemplateBinder(cls.value.name))
  }

  /** TemplateBinder.for as written: `raise IsnotTemplateBinder(...)` calls a method that does
      not exist. */
  function ForAsWritten(bindable: bool, cls: Option<BinderClass>): (r: Result<Option<Made>, Err>)
    ensures r.Failure? ==> r.error == NoMethod("IsnotTemplateBinder")
  {
    if For(bindable, cls).Failure? then Failure(NoMethod("IsnotTemplateBinder")) else For(bindable, cls)
  }

  lemma ForErrors(bindable: bool, cls: Option<BinderClass>)
    ensures ForAsWritten(bindable, cls).Success? <==> For(bindable, cls).Success?
    ensures For(bindable, cls).Success? ==> ForAsWritten(bindable, cls) == For(bindable, cls)
    ensures For(bindable, cls).Failure? ==> bindable && cls.Some? && !cls.value.isTemplateBinder
  {
  }

  /** The steps of `bound`. */
  datatype Step = BeforeHooks | BindStep | AfterHooks

  /** bound: the before hooks, then `bind!` when the binder defines it, then the after hooks. */
  function Bound(definesBind: bool): (r: seq<Step>)
    ensures |r| >= 2 && r[0] == BeforeHooks && r[|r| - 1] == AfterHooks
    ensures BindStep in r <==> definesBind
    ensures definesBind ==> r[1] == BindStep
  {
    if definesBind then [BeforeHooks, BindStep, AfterHooks] else [BeforeHooks, AfterHooks]
  }

  class TemplateBinder {
    const fam: Family
    const parsed: Parsed                  // the template's parser
    const members: seq<string>            // data_struct's members
    var data: Option<map<string, Value>>  // @data, made on first use

    /** Binder.new: `data_struct` is a Struct of the attribute tags (`Struct.new(nil)`, with no
        members, when there are none). */
    constructor (fam: Family, parsed: Parsed)
      ensures this.fam == fam && this.parsed == parsed
      ensures members == AttributeTags(fam, parsed) && Distinct(members)
      ensures data == None && Valid()
    {
      this.fam := fam;
      this.parsed := parsed;
      members := AttributeTags(fam, parsed);
      data := None;
    }

    /** The struct has exactly the members. */
    predicate Valid()
      reads this
    {
      data.Some? ==> data.value.Keys == set m | m in members
    }

    /** The struct `data` returns: the memo, or a fresh one. */
    function Current(): (d: map<string, Value>)
      reads this
      ensures Valid() ==> d.Keys == set m | m in members
    {
      if data.Some? then data.value else EmptyRecord(members)
    }

    /** The binder as the value templates are rendered against. */
    function AsValue(): (v: Value)
      reads this
      ensures Valid() ==> DataOf(v) == Some(Current())
    {
      Record(Current())
    }

    /** data: `@data ||= @data_struct.new`, so every call returns the same struct. */
    method Data() returns (d: map<string, Value>)
      requires Valid()
      modifies this`data
      ensures d == old(Current()) && data == Some(d) && Valid()
      ensures old(data).Some? ==> d == old(data).value
    {
      if data.None? {
        data := Some(EmptyRecord(members));
      }
      d := data.value;
    }

    /** attach(**params) of binder.rb: every key must be a tag, and the keys before an unknown
        one stay assigned. */
    method AttachStrict(params: Params) returns (r: Result<map<string, Value>, Err>)
      requires Valid()
      modifies this`data
      ensures var a := StrictAssign(old(Current()), members, params);
              && data == Some(a.0) && r == Outcome(a)
      ensures Valid()
    {
      var d := Data();
      var i := 0;
      while i < |params|
        invariant i <= |params|
        invariant StrictAssign(old(Current()), members, params) == StrictAssign(d, members, params[i..])
        invariant data == Some(d) && d.Keys == set m | m in members
      {
        assert params[i..][1..] == params[i + 1..];
        if params[i].0 !in members {
          return Failure(UnknownTag(params[i].0));
        }
        d := d[params[i].0 := params[i].1];
        data := Some(d);
        i := i + 1;
      }
      assert params[i..] == [];
      return Success(d);
    }

    /** The `data.tap do |d| params.each ...` loop of template_binder.rb's attach. */
    method AssignLenient(params: Params) returns (r: Result<map<string, Value>, Err>)
      requires Valid()
      modifies this`data
      ensures var a := LenientAssign(fam, parsed, old(Current()), members, params);
              && data == Some(a.0) && r == Outcome(a)
      ensures Valid()
    {
      var d := Data();
      var i := 0;
      while i < |params|
        invariant i <= |params|
        invariant LenientAssign(fam, parsed, old(Current()), members, params) == LenientAssign(fam, parsed, d, members, params[i..])
        invariant data == Some(d) && d.Keys == set m | m in members
      {
        assert params[i..][1..] == params[i + 1..];
        var k := params[i].0;
        if k in members {
          var w := Convert(fam, parsed, k, params[i].1);
          if w.Failure? {
            return Failure(w.error);
          }
          d := d[k := w.value];
          data := Some(d);
        }
        i := i + 1;
      }
      assert params[i..] == [];
      return Success(d);
    }

    /** attach_json(json), with the JSON already parsed into its entries. */
    method AttachJson(entries: Params) returns (r: Result<map<string, Value>, Err>)
      requires Valid()
      modifies this`data
      ensures r == JsonAttach(fam, parsed, old(Current()), members, entries)
      ensures r.Success? ==> data == Some(r.value)
      ensures Valid()
    {
      r := AssignLenient(Scalars(entries));
      if r.Failure? {
        return;
      }
      var loops := ArrayLoops(fam, parsed, entries);
      if loops.Failure? {
        return Failure(loops.error);
      }
      r := AssignLenient(loops.value);
    }

    /** attach(json = nil, **params) of template_binder.rb. */
    method Attach(json: Option<Params>, params: Params) returns (r: Result<map<string, Value>, Err>)
      requires Valid()
      modifies this`data
      ensures json.None? ==> r == Outcome(LenientAssign(fam, parsed, old(Current()), members, params))
      ensures json.Some? && JsonAttach(fam, parsed, old(Current()), members, json.value).Failure? ==>
                r == JsonAttach(fam, parsed, old(Current()), members, json.value)
      ensures json.Some? && JsonAttach(fam, parsed, old(Current()), members, json.value).Success? ==>
                r == Outcome(LenientAssign(fam, parsed, JsonAttach(fam, parsed, old(Current()), members, json.value).value, members, params))
      ensures Valid()
    {
      if json.Some? {
        r := AttachJson(json.value);
        if r.Failure? {
          return;
        }
      }
      r := AssignLenient(params);
    }
  }

  /** A fold's struct and error as attach's result. */
  function Outcome(a: (map<string, Value>, Option<Err>)): (r: Result<map<string, Value>, Err>)
    ensures r.Success? <==> a.1.None?
  {
    if a.1.Some? then Failure(a.1.value) else Success(a.0)
  }

  /** attach_json as a function of the struct before it. */
  function JsonAttach(fam: Family, p: Parsed, d: map<string, Value>, members: seq<string>, entries: Params): Result<map<string, Value>, Err> {
    var first := LenientAssign(fam, p, d, members, Scalars(entries));
    if first.1.Some? then Failure(first.1.value)
    else match ArrayLoops(fam, p, entries)
      case Failure(e) => Failure(e)
      case Success(loops) => Outcome(LenientAssign(fam, p, first.0, members, loops))
  }
}
