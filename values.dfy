/** The Ruby values a template is rendered against, reduced to what the engine asks of them:
    truthiness, `to_s`, and the two-level lookup `binder.data.respond_to?(id)` /
    `binder.data.send(id)`; and the errors the engine can end in. */
module Values {
  import opened Wrappers
  import opened Strings

  datatype Value =
    | Nil
    | Bool(b: bool)
    | Int(i: int)
    | Str(s: string)
    | List(elems: seq<Value>)                 // an Array
    | Hash(entries: seq<(string, Value)>)     // a Hash, in insertion order
    | Generator(items: seq<Value>)            // a Proc whose block returns an Array of these items
    | Looper(items: seq<Value>)               // a LoopBinder: its `data` enumerates the items
    | Record(fields: map<string, Value>)      // an object whose `data` is a Struct of these members
    | Opaque(name: string)                    // any other object

  /** What made the Ruby code raise. */
  datatype Err =
    | NoMethod(name: string)         // NoMethodError: a method called on an object without it
    | UnknownTag(tag: string)
    | DuplicatedLoop(tag: string)
    | NotTemplateBinder(name: string)
    | NotFound(path: string)
    | NoEntry(path: string)          // Errno::ENOENT from the file system
    | ArgumentError(what: string)
    | Unmodelled(what: string)       // a Ruby behaviour outside this model
    | OutOfFuel

  /** Ruby truthiness: everything but `nil` and `false`. */
  predicate Truthy(v: Value) {
    !(v.Nil? || v == Bool(false))
  }

  /** `to_s` on the values whose rendering the model knows. */
  function ToS(v: Value): (r: Option<string>)
    ensures r.Some? <==> (v.Nil? || v.Bool? || v.Int? || v.Str?)
    ensures v.Str? ==> r == Some(v.s)
    ensures v.Nil? ==> r == Some("")
  {
    match v
    case Nil => Some("")
    case Bool(b) => Some(if b then "true" else "false")
    case Int(i) => Some(IntToString(i))
    case Str(s) => Some(s)
    case _ => None
  }

  /** `binder.data`: the members that `binder.data` responds to, or None when the object has no
      `data` method. A loop binder's `data` is an enumerator, which answers no tag. */
  function DataOf(b: Value): (r: Option<map<string, Value>>)
    ensures r.Some? <==> (b.Record? || b.Looper?)
    ensures b.Record? ==> r == Some(b.fields)
  {
    match b
    case Record(f) => Some(f)
    case Looper(_) => Some(map[])
    case _ => None
  }

  /** Whether `binder.context` can be sent: the binders (a TemplateBinder or a loop item,
      both records here, and a LoopBinder) have a context; nil and the other values do not. */
  predicate HasContext(b: Value) {
    b.Record? || b.Looper?
  }

  /** `binder.data.send(id) if binder.data.respond_to?(id)`: Nil when the member is absent. */
  function Lookup(data: map<string, Value>, id: string): (r: Value)
    ensures id !in data ==> r.Nil?
    ensures id in data ==> r == data[id]
  {
    if id in data then data[id] else Nil
  }
}
