/** The Parameters object of lib/tzispa/rig/parameters.rb: a raw `k=v,k=v` string read into an
    insertion-ordered hash keyed by symbol, written back by `to_s`. The hash is a list of
    entries with distinct keys, so that its order is the order Ruby iterates it in. */
module Params {
  import opened Wrappers
  import opened Strings
  import opened Values

  /** One key of `@data`: `key,value = param.split(inner)` leaves the value nil when the piece
      has no second part. */
  datatype Entry = Entry(key: string, value: Option<string>)

  function Keys(d: seq<Entry>): (r: seq<string>)
    ensures |r| == |d| && forall k :: 0 <= k < |d| ==> r[k] == d[k].key
  {
    if d == [] then [] else [d[0].key] + Keys(d[1..])
  }

  predicate KeysDistinct(d: seq<Entry>) {
    forall i, j :: 0 <= i < j < |d| ==> d[i].key != d[j].key
  }

  /** Where `key` sits in the hash. */
  function Position(d: seq<Entry>, key: string): (r: Option<nat>)
    ensures r.Some? ==> r.value < |d| && d[r.value].key == key
    ensures r.Some? ==> forall j :: 0 <= j < r.value ==> d[j].key != key
    ensures r.None? <==> key !in Keys(d)
  {
    if d == [] then None
    else if d[0].key == key then Some(0)
    else match Position(d[1..], key)
      case None => None
      case Some(k) => Some(k + 1)
  }

  /** `@data[key]`: nil for a missing key and for a key stored with a nil value. */
  function ValueOf(d: seq<Entry>, key: string): Option<string> {
    match Position(d, key)
    case None => None
    case Some(k) => d[k].value
  }

  /** `@data[key] = value`: an existing key keeps its place and takes the new value, a new key
      goes at the end. */
  function Store(d: seq<Entry>, key: string, value: Option<string>): (r: seq<Entry>)
    ensures Keys(r) == if key in Keys(d) then Keys(d) else Keys(d) + [key]
  {
    match Position(d, key)
    case None => d + [Entry(key, value)]
    case Some(k) => d[k := Entry(key, value)]
  }

  /** One piece of the raw string: its first `inner`-part is the key, its second the value; a
      piece with no parts at all (an empty piece, or one made of separators) leaves the key nil,
      and `nil.to_sym` raises. */
  function Piece(param: string, inner: string): (r: Result<Entry, Err>)
    ensures r.Failure? <==> Split(param, inner) == []
    ensures r.Success? ==> r.value.key == Split(param, inner)[0]
    ensures r.Success? ==> (r.value.value.Some? <==> |Split(param, inner)| > 1)
  {
    var parts := Split(param, inner);
    if parts == [] then Failure(NoMethod("to_sym"))
    else Success(Entry(parts[0], if |parts| > 1 then Some(parts[1]) else None))
  }

  /** Every piece read on its own. */
  function Read(pieces: seq<string>, inner: string): (r: seq<Result<Entry, Err>>)
    ensures |r| == |pieces| && forall k :: 0 <= k < |pieces| ==> r[k] == Piece(pieces[k], inner)
  {
    seq(|pieces|, k requires 0 <= k < |pieces| => Piece(pieces[k], inner))
  }

  /** setData over the read pieces left to right: the hash after them, and the error that
      stopped it, if any; the pieces before the failing one are already stored. */
  function Load(d: seq<Entry>, rs: seq<Result<Entry, Err>>): (seq<Entry>, Option<Err>)
    decreases |rs|
  {
    if rs == [] then (d, None)
    else match rs[0]
      case Failure(e) => (d, Some(e))
      case Success(en) => Load(Store(d, en.key, en.value), rs[1..])
  }

  /** setData(params): split on `outer`, read each piece, store them in turn. */
  function SetData(d: seq<Entry>, params: string, outer: string, inner: string): (seq<Entry>, Option<Err>) {
    Load(d, Read(Split(params, outer), inner))
  }

  /** The error `Parameters.new(params)` raises, if any, with its default separators `,` and `=`. */
  function ParamsError(params: Option<string>): Option<Err> {
    if params.None? then None else SetData([], params.value, ",", "=").1
  }

  /** `"#{k}#{inner}#{v}"`: a nil value prints as nothing. */
  function Pair(en: Entry, inner: string): string {
    en.key + inner + en.value.GetOr("")
  }

  function Pairs(d: seq<Entry>, inner: string): (r: seq<string>)
    ensures |r| == |d| && forall k :: 0 <= k < |d| ==> r[k] == Pair(d[k], inner)
  {
    if d == [] then [] else [Pair(d[0], inner)] + Pairs(d[1..], inner)
  }

  /** to_s: the pair of every entry in order, joined with `outer`. */
  function Render(d: seq<Entry>, outer: string, inner: string): string {
    Join(Pairs(d, inner), outer)
  }

  class Parameters {
    const outer: string
    const inner: string
    var data: seq<Entry>

    /** A hash has each key once. */
    predicate Valid()
      reads this
    {
      KeysDistinct(data)
    }

    /** The empty hash with the two separators. */
    constructor Init(outer: string, inner: string)
      ensures this.outer == outer && this.inner == inner && data == [] && Valid()
    {
      this.outer := outer;
      this.inner := inner;
      data := [];
    }

    /** Parameters.new(params, outer, inner): empty, then `setData(params) if params`; an
        error raised by setData leaves no object. */
    static method New(params: Option<string>, outer: string, inner: string) returns (r: Result<Parameters, Err>)
      ensures params.None? ==> r.Success? && r.value.data == []
      ensures params.Some? ==> var l := SetData([], params.value, outer, inner);
              (r.Success? <==> l.1.None?) && (r.Failure? ==> r.error == l.1.value)
              && (r.Success? ==> r.value.data == l.0)
      ensures r.Success? ==> fresh(r.value) && r.value.outer == outer && r.value.inner == inner
      ensures r.Success? ==> r.value.Valid()
    {
      var p := new Parameters.Init(outer, inner);
      if params.Some? {
        var e := p.Merge(params.value);
        if e.Some? {
          return Failure(e.value);
        }
      }
      return Success(p);
    }

    /** set(key, value): store under the key. */
    method Set(key: string, value: Option<string>)
      requires Valid()
      modifies this
      ensures data == Store(old(data), key, value) && Valid()
    {
      StoreDistinct(data, key, value);
      data := Store(data, key, value);
    }

    /** get(key) and `[]`: the value stored for the key, nil when there is none. */
    function Get(key: string): (r: Option<string>)
      reads this
      ensures r.Some? ==> Has(key)
    {
      ValueOf(data, key)
    }

    /** has?(key). */
    predicate Has(key: string)
      reads this
    {
      key in Keys(data)
    }

    /** to_s. */
    function ToS(): (s: string)
      reads this
      ensures |data| == 0 ==> s == ""
    {
      Render(data, outer, inner)
    }

    /** merge(params), which is setData: split on `outer`, then store each piece in turn. */
    method Merge(params: string) returns (e: Option<Err>)
      requires Valid()
      modifies this
      ensures (data, e) == SetData(old(data), params, outer, inner)
      ensures Valid()
    {
      var pieces := Split(params, outer);
      ghost var rs := Read(pieces, inner);
      var i := 0;
      while i < |pieces|
        invariant i <= |pieces| && Valid()
        invariant Load(old(data), rs) == Load(data, rs[i..])
      {
        assert rs[i..][1..] == rs[i + 1..];
        var en := Piece(pieces[i], inner);
        if en.Failure? {
          return Some(en.error);
        }
        StoreDistinct(data, en.value.key, en.value.value);
        data := Store(data, en.value.key, en.value.value);
        i := i + 1;
      }
      return None;
    }
  }

  // ---------------------------------------------------------------- properties of the hash

  lemma StoreDistinct(d: seq<Entry>, key: string, value: Option<string>)
    requires KeysDistinct(d)
    ensures KeysDistinct(Store(d, key, value))
  {
    var r := Store(d, key, value);
    assert Keys(r) == if key in Keys(d) then Keys(d) else Keys(d) + [key];
    forall i, j | 0 <= i < j < |r| ensures r[i].key != r[j].key {
      assert Keys(r)[i] == r[i].key && Keys(r)[j] == r[j].key;
    }
  }

  /** After a store, get of the key is the stored value, whatever was there before. */
  lemma StoreGet(d: seq<Entry>, key: string, value: Option<string>)
    ensures ValueOf(Store(d, key, value), key) == value
    ensures key in Keys(Store(d, key, value))
  {
    var r := Store(d, key, value);
    match Position(d, key)
    case None =>
      assert Keys(r) == Keys(d) + [key];
      assert r[|d|] == Entry(key, value);
    case Some(k) =>
      assert r[k].key == key;
  }

  /** A store changes at most the entry of its own key, and never shortens the hash. */
  lemma StoreAt(d: seq<Entry>, key: string, value: Option<string>)
    ensures var r := Store(d, key, value);
            |d| <= |r| && forall j :: 0 <= j < |d| ==> r[j] == d[j] || (r[j].key == key && d[j].key == key)
  {
  }

  /** A store leaves every other key, its presence and its value, as it was. */
  lemma StoreOther(d: seq<Entry>, key: string, value: Option<string>, other: string)
    requires other != key
    ensures ValueOf(Store(d, key, value), other) == ValueOf(d, other)
    ensures other in Keys(Store(d, key, value)) <==> other in Keys(d)
  {
    var r := Store(d, key, value);
    StoreAt(d, key, value);
    if key !in Keys(d) {
      assert Keys(r) == Keys(d) + [key];
      assert other in Keys(d) + [key] <==> other in Keys(d);
    }
    match Position(d, other)
    case None =>
      assert other !in Keys(r);
    case Some(k) =>
      assert r[k] == d[k];
      forall j | 0 <= j < k ensures r[j].key != other {
        assert r[j] == d[j] || r[j].key == key;
      }
      assert Keys(r)[k] == other;
      var q := Position(r, other);
      assert q.Some? && r[q.value].key == other;
      assert q.value <= k;
      assert q.value >= k;
  }

  /** A key of the hash that no piece names keeps its value through setData. */
  lemma {:induction false} LoadOther(d: seq<Entry>, rs: seq<Result<Entry, Err>>, other: string)
    requires forall k :: 0 <= k < |rs| ==> rs[k].Failure? || rs[k].value.key != other
    ensures ValueOf(Load(d, rs).0, other) == ValueOf(d, other)
    ensures other in Keys(Load(d, rs).0) <==> other in Keys(d)
    decreases |rs|
  {
    if rs != [] && rs[0].Success? {
      StoreOther(d, rs[0].value.key, rs[0].value.value, other);
      LoadOther(Store(d, rs[0].value.key, rs[0].value.value), rs[1..], other);
    }
  }

  /** When setData gets through all its pieces, a key holds the value of the last piece that
      names it: a later duplicate key overwrites an earlier one. */
  lemma {:induction false} LoadLastWins(d: seq<Entry>, rs: seq<Result<Entry, Err>>, k: nat)
    requires k < |rs| && Load(d, rs).1.None? && rs[k].Success?
    requires forall j :: k < j < |rs| ==> rs[j].Failure? || rs[j].value.key != rs[k].value.key
    ensures ValueOf(Load(d, rs).0, rs[k].value.key) == rs[k].value.value
    decreases k, 1
  {
    if k == 0 {
      LoadStep(d, rs);
      LoadHeadWins(d, rs);
    } else {
      LoadLaterWins(d, rs, k);
    }
  }

  /** LoadLastWins for a piece after the first: setData goes on past the first piece. */
  lemma {:induction false} LoadLaterWins(d: seq<Entry>, rs: seq<Result<Entry, Err>>, k: nat)
    requires 0 < k < |rs| && Load(d, rs).1.None? && rs[k].Success?
    requires forall j :: k < j < |rs| ==> rs[j].Failure? || rs[j].value.key != rs[k].value.key
    ensures ValueOf(Load(d, rs).0, rs[k].value.key) == rs[k].value.value
    decreases k, 0
  {
    LoadShift(d, rs, k);
    LoadLastWins(Store(d, rs[0].value.key, rs[0].value.value), rs[1..], k - 1);
  }

  /** What LoadLaterWins needs of the pieces after the first, shifted down by one. */
  lemma LoadShift(d: seq<Entry>, rs: seq<Result<Entry, Err>>, k: nat)
    requires 0 < k < |rs| && Load(d, rs).1.None? && rs[k].Success?
    requires forall j :: k < j < |rs| ==> rs[j].Failure? || rs[j].value.key != rs[k].value.key
    ensures rs[0].Success? && Load(d, rs) == Load(Store(d, rs[0].value.key, rs[0].value.value), rs[1..])
    ensures rs[1..][k - 1] == rs[k]
    ensures forall j :: k - 1 < j < |rs[1..]| ==> rs[1..][j].Failure? || rs[1..][j].value.key != rs[k].value.key
  {
    LoadStep(d, rs);
    var rest := rs[1..];
    forall j | k - 1 < j < |rest| ensures rest[j].Failure? || rest[j].value.key != rs[k].value.key {
      assert rest[j] == rs[j + 1];
    }
  }

  /** The first piece keeps its value when no later piece names its key. */
  lemma LoadHeadWins(d: seq<Entry>, rs: seq<Result<Entry, Err>>)
    requires |rs| > 0 && rs[0].Success?
    requires forall j :: 0 < j < |rs| ==> rs[j].Failure? || rs[j].value.key != rs[0].value.key
    ensures var en := rs[0].value; ValueOf(Load(Store(d, en.key, en.value), rs[1..]).0, en.key) == en.value
  {
    var en, rest := rs[0].value, rs[1..];
    forall j | 0 <= j < |rest| ensures rest[j].Failure? || rest[j].value.key != en.key {
      assert rest[j] == rs[j + 1];
    }
    LoadOther(Store(d, en.key, en.value), rest, en.key);
    StoreGet(d, en.key, en.value);
  }

  /** setData that raises nothing read every piece successfully. */
  lemma {:induction false} LoadAllSucceed(d: seq<Entry>, rs: seq<Result<Entry, Err>>)
    requires Load(d, rs).1.None?
    ensures forall k :: 0 <= k < |rs| ==> rs[k].Success?
    decreases |rs|
  {
    if rs != [] {
      LoadStep(d, rs);
      LoadAllSucceed(Store(d, rs[0].value.key, rs[0].value.value), rs[1..]);
      forall k | 1 <= k < |rs| ensures rs[k].Success? {
        assert rs[k] == rs[1..][k - 1];
      }
    }
  }

  lemma LoadStep(d: seq<Entry>, rs: seq<Result<Entry, Err>>)
    requires |rs| > 0 && Load(d, rs).1.None?
    ensures rs[0].Success? && Load(d, rs) == Load(Store(d, rs[0].value.key, rs[0].value.value), rs[1..])
  {
  }

  // ---------------------------------------------------------------- round trip

  /** An entry that reads back as itself: key and value present, non-empty and free of both
      one-character separators. */
  predicate PlainEntry(en: Entry, o: char, i: char) {
    && en.value.Some? && en.key != "" && en.value.value != ""
    && o !in en.key && i !in en.key && o !in en.value.value && i !in en.value.value
  }

  /** A hash that reads back as itself: distinct separators, distinct keys, plain entries. */
  predicate Plain(d: seq<Entry>, o: char, i: char) {
    o != i && KeysDistinct(d) && forall k :: 0 <= k < |d| ==> PlainEntry(d[k], o, i)
  }

  lemma PairSplits(en: Entry, o: char, i: char)
    requires PlainEntry(en, o, i)
    ensures Piece(Pair(en, [i]), [i]) == Success(en)
  {
    var parts := [en.key, en.value.value];
    assert Join(parts, [i]) == en.key + [i] + en.value.value;
    FieldsOfJoin(parts, i);
  }

  lemma PlainHead(acc: seq<Entry>, d: seq<Entry>, o: char, i: char)
    requires Plain(acc + d, o, i) && d != []
    ensures PlainEntry(d[0], o, i) && d[0].key !in Keys(acc)
    ensures acc + [d[0]] + d[1..] == acc + d && Plain(acc + [d[0]] + d[1..], o, i)
  {
    assert (acc + d)[|acc|] == d[0];
    forall j | 0 <= j < |acc| ensures Keys(acc)[j] != d[0].key {
      assert (acc + d)[j] == acc[j];
    }
    assert acc + [d[0]] + d[1..] == acc + d;
  }

  lemma LoadCons(acc: seq<Entry>, rs: seq<Result<Entry, Err>>, en: Entry)
    requires |rs| > 0 && rs[0] == Success(en) && en.key !in Keys(acc)
    ensures Load(acc, rs) == Load(acc + [en], rs[1..])
  {
    assert Store(acc, en.key, en.value) == acc + [en];
  }

  lemma {:induction false} LoadPlain(acc: seq<Entry>, d: seq<Entry>, o: char, i: char)
    requires Plain(acc + d, o, i)
    ensures Load(acc, Read(Pairs(d, [i]), [i])) == (acc + d, None)
    decreases |d|
  {
    if d != [] {
      var en := d[0];
      PlainHead(acc, d, o, i);
      PairSplits(en, o, i);
      var rs := Read(Pairs(d, [i]), [i]);
      assert rs[1..] == Read(Pairs(d[1..], [i]), [i]);
      LoadCons(acc, rs, en);
      LoadPlain(acc + [en], d[1..], o, i);
    } else {
      assert acc + d == acc;
    }
  }

  /** to_s followed by Parameters.new with the same separators gives back the same hash, for
      one-character separators and entries that contain neither. */
  lemma RoundTrip(d: seq<Entry>, o: char, i: char)
    requires Plain(d, o, i) && |d| > 0
    ensures SetData([], Render(d, [o], [i]), [o], [i]) == (d, None)
  {
    var ps := Pairs(d, [i]);
    forall k | 0 <= k < |ps| ensures o !in ps[k] {
      assert ps[k] == d[k].key + [i] + d[k].value.value;
    }
    FieldsOfJoin(ps, o);
    assert ps[|ps| - 1] != "";
    assert Split(Render(d, [o], [i]), [o]) == ps;
    assert [] + d == d;
    LoadPlain([], d, o, i);
  }

  /** to_s of a hash with one more entry at the end: the old string, `outer`, the new pair. */
  lemma RenderSnoc(d: seq<Entry>, en: Entry, outer: string, inner: string)
    requires |d| > 0
    ensures Render(d + [en], outer, inner) == Render(d, outer, inner) + outer + Pair(en, inner)
  {
    assert Pairs(d + [en], inner) == Pairs(d, inner) + [Pair(en, inner)];
    JoinSnoc(Pairs(d, inner), Pair(en, inner), outer);
  }

  lemma {:induction false} JoinSnoc(parts: seq<string>, p: string, sep: string)
    requires |parts| > 0
    ensures Join(parts + [p], sep) == Join(parts, sep) + sep + p
    decreases |parts|
  {
    if |parts| == 1 {
      assert parts + [p] == [parts[0]] + [p];
      JoinCons(parts[0], [p], sep);
    } else {
      assert parts + [p] == [parts[0]] + (parts[1..] + [p]);
      JoinCons(parts[0], parts[1..] + [p], sep);
      JoinSnoc(parts[1..], p, sep);
      JoinCons(parts[0], parts[1..], sep);
      assert [parts[0]] + parts[1..] == parts;
    }
  }

  // ---------------------------------------------------------------- the test's strings

  const Raw := "k1=value1;k2=value2"
  const RawAdd := "k4=value4"
  const E1 := Entry("k1", Some("value1"))
  const E2 := Entry("k2", Some("value2"))
  const E4 := Entry("k4", Some("value4"))
  const E5 := Entry("k5", Some("value5"))

  lemma RenderTwo()
    ensures Render([E1, E2], ";", "=") == Raw
  {
    assert Render([E1], ";", "=") == "k1=value1";
    assert [E1] + [E2] == [E1, E2];
    RenderSnoc([E1], E2, ";", "=");
  }

  lemma PlainThree()
    ensures Plain([E1, E2, E4], ';', '=') && Plain([E1, E2], ';', '=')
  {
  }

  /** Parameters.new(Raw, ';') reads k1 = value1 and then k2 = value2. */
  lemma ReadWithSemicolon()
    ensures SetData([], Raw, ";", "=") == ([E1, E2], None)
  {
    RenderTwo();
    PlainThree();
    RoundTrip([E1, E2], ';', '=');
  }

  /** Of that hash, has? k1 holds, k1 gives value1, k2 gives value2 and k4 gives nil. */
  lemma LookupTwo()
    ensures "k1" in Keys([E1, E2]) && ValueOf([E1, E2], "k1") == Some("value1")
    ensures ValueOf([E1, E2], "k2") == Some("value2") && ValueOf([E1, E2], "k4") == None
  {
    assert Keys([E1, E2]) == ["k1", "k2"];
  }

  lemma SplitAdd()
    ensures Split(RawAdd, ";") == Pairs([E4], "=")
  {
    assert Pairs([E4], "=") == [RawAdd] by {
      assert E4.value.GetOr("") == "value4";
      assert "k4" + "=" + "value4" == RawAdd;
    }
    FieldsOfJoin([RawAdd], ';');
  }

  /** merge(RawAdd) on that hash appends k4 = value4. */
  lemma MergeAppends()
    ensures SetData([E1, E2], RawAdd, ";", "=") == ([E1, E2, E4], None)
  {
    SplitAdd();
    PlainThree();
    assert [E1, E2] + [E4] == [E1, E2, E4];
    LoadPlain([E1, E2], [E4], ';', '=');
  }

  /** to_s after the merge gives the two raw strings joined by ';'. */
  lemma MergeThenToS()
    ensures Render([E1, E2, E4], ";", "=") == Raw + ";" + RawAdd
  {
    RenderTwo();
    assert Pair(E4, "=") == RawAdd;
    assert [E1, E2] + [E4] == [E1, E2, E4];
    RenderSnoc([E1, E2], E4, ";", "=");
  }

  /** A set of the new key k5 after that goes at the end, and to_s shows it last. */
  lemma SetThenToS()
    ensures ValueOf(Store([E1, E2, E4], "k5", Some("value5")), "k5") == Some("value5")
    ensures Render(Store([E1, E2, E4], "k5", Some("value5")), ";", "=") == Raw + ";" + RawAdd + ";" + "k5=value5"
  {
    assert Pair(E5, "=") == "k5=value5";
    assert Keys([E1, E2, E4]) == ["k1", "k2", "k4"];
    assert Store([E1, E2, E4], "k5", Some("value5")) == [E1, E2, E4] + [E5];
    StoreGet([E1, E2, E4], "k5", Some("value5"));
    MergeThenToS();
    RenderSnoc([E1, E2, E4], E5, ";", "=");
  }

  lemma SplitWrongOuter()
    ensures Split(Raw, ",") == [Raw]
  {
    FieldsOfJoin([Raw], ',');
  }

  lemma SplitWrongInner()
    ensures Split(Raw, "=") == ["k1", "value1;k2", "value2"]
  {
    RawIsJoin();
    FieldsOfJoin(["k1", "value1;k2", "value2"], '=');
  }

  /** With the default ',' the raw string is one piece: k1 takes "value1;k2" and k2 is absent. */
  lemma ReadWithWrongSeparator()
    ensures var d := SetData([], Raw, ",", "=");
            d.1.None? && ValueOf(d.0, "k1") == Some("value1;k2") && "k2" !in Keys(d.0)
  {
    SplitWrongOuter();
    SplitWrongInner();
    var en := Entry("k1", Some("value1;k2"));
    assert Piece(Raw, "=") == Success(en);
    var rs := Read([Raw], "=");
    assert rs == [Success(en)];
    LoadCons([], rs, en);
    assert [] + [en] == [en];
    assert rs[1..] == [];
    assert SetData([], Raw, ",", "=") == ([en], None);
    assert Keys([en]) == ["k1"];
  }

  lemma RawIsJoin()
    ensures Join(["k1", "value1;k2", "value2"], "=") == Raw
  {
    JoinCons("value1;k2", ["value2"], "=");
    assert ["value1;k2", "value2"] == ["value1;k2"] + ["value2"];
    JoinCons("k1", ["value1;k2", "value2"], "=");
    assert ["k1", "value1;k2", "value2"] == ["k1"] + ["value1;k2", "value2"];
    assert "k1" + "=" + ("value1;k2" + "=" + "value2") == Raw;
  }
}
