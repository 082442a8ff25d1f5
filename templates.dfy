/** lib/tzispa/rig/template.rb: the File object that loads a template file and tells when
    it is stale, the Template built on it (its name, kind, domain and format, the filename
    derived from them, its params and its lazily made parser), and the small Engine of the
    same file. The file system is a value handed to the operations that touch it. */
module Templates {
  import opened Wrappers
  import opened Strings
  import opened Values
  import opened TokenTree
  import opened Render
  import opened Params
  import opened Parse
  import opened Parser

  // ---------------------------------------------------------------- the file system

  /** A file on disk: its lines, each with its line end, and its modification time. */
  datatype Disk = Disk(lines: seq<string>, mtime: int)

  type FileSystem = map<string, Disk>

  /** The text of a file: its lines one after another. */
  function Concat(lines: seq<string>): string {
    if |lines| == 0 then "" else Concat(lines[..|lines| - 1]) + lines[|lines| - 1]
  }

  /** Reading two runs of lines is reading the first, then the second. */
  lemma {:induction false} ConcatAppend(a: seq<string>, b: seq<string>)
    ensures Concat(a + b) == Concat(a) + Concat(b)
    decreases |b|
  {
    if |b| == 0 {
      assert a + b == a;
    } else {
      var b' := b[..|b| - 1];
      assert (a + b)[..|a + b| - 1] == a + b';
      assert (a + b)[|a + b| - 1] == b[|b| - 1];
      ConcatAppend(a, b');
    }
  }

  /** `modified?` meant as `@modified != mtime(@file)`: a file no longer on disk raises
      Errno::ENOENT; a file never loaded (no recorded mtime) is always stale. */
  function Stale(recorded: Option<int>, fs: FileSystem, path: string): (r: Result<bool, Err>)
    ensures r.Failure? <==> path !in fs
    ensures r.Failure? ==> r.error == NoEntry(path)
    ensures r.Success? ==> (r.value <==> recorded != Some(fs[path].mtime))
  {
    if path !in fs then Failure(NoEntry(path)) else Success(recorded != Some(fs[path].mtime))
  }

  /** Right after a load the file is not stale. */
  lemma FreshAfterLoad(fs: FileSystem, path: string)
    requires path in fs
    ensures Stale(Some(fs[path].mtime), fs, path) == Success(false)
  {
  }

  /** Writing the file with a new mtime makes the loaded copy stale. */
  lemma StaleAfterWrite(fs: FileSystem, path: string, d: Disk)
    requires path in fs && d.mtime != fs[path].mtime
    ensures Stale(Some(fs[path].mtime), fs[path := d], path) == Success(true)
  {
  }

  // ---------------------------------------------------------------- File

  /** Tzispa::Rig::File: a path, and once loaded its content and the mtime it had then. */
  class RigFile {
    const file: string
    var loaded: bool
    var content: Option<string>
    var modified: Option<int>

    /** A loaded file has content and a recorded mtime. */
    predicate Valid()
      reads this
    {
      loaded ==> content.Some? && modified.Some?
    }

    /** File.new(file): not loaded. */
    constructor (file: string)
      ensures this.file == file && !loaded && content.None? && modified.None? && Valid()
    {
      this.file := file;
      loaded := false;
      content := None;
      modified := None;
    }

    /** The instance variables of `f`, copied as `dup` copies them. */
    constructor Clone(f: RigFile)
      ensures file == f.file && loaded == f.loaded && content == f.content && modified == f.modified
    {
      file := f.file;
      loaded := f.loaded;
      content := f.content;
      modified := f.modified;
    }

    /** loaded?. */
    function IsLoaded(): (r: bool)
      requires Valid()
      reads this
      ensures r ==> content.Some? && modified.Some?
    {
      loaded
    }

    /** exist?. */
    function Exists(fs: FileSystem): (r: bool)
      ensures r <==> file in fs
    {
      file in fs
    }

    /** modified? as written: inside Tzispa::Rig, `File.mtime` names this class, which has
        no `mtime`, so every call raises. */
    function ModifiedAsWritten(fs: FileSystem): (r: Result<bool, Err>)
      ensures r == Failure(NoMethod("mtime"))
    {
      Failure(NoMethod("mtime"))
    }

    /** modified? as meant: the recorded mtime against the file's current one. */
    function Modified(fs: FileSystem): (r: Result<bool, Err>)
      reads this
      ensures r.Failure? <==> !Exists(fs)
      ensures r.Success? ==> (r.value <==> modified != Some(fs[file].mtime))
    {
      Stale(modified, fs, file)
    }

    /** load!: NotFound when the file is missing; otherwise the mtime is recorded, the lines
        are read one by one onto the content, and the file is marked loaded. */
    method Load(fs: FileSystem) returns (e: Option<Err>)
      requires Valid()
      modifies this
      ensures file !in fs ==> e == Some(NotFound(file))
      ensures file !in fs ==> loaded == old(loaded) && content == old(content) && modified == old(modified)
      ensures file in fs ==> e.None? && loaded && content == Some(Concat(fs[file].lines))
      ensures file in fs ==> modified == Some(fs[file].mtime)
      ensures Valid()
    {
      if file !in fs {
        return Some(NotFound(file));
      }
      var d := fs[file];
      var text := "";
      modified := Some(d.mtime);
      var i := 0;
      while i < |d.lines|
        invariant i <= |d.lines| && text == Concat(d.lines[..i])
      {
        assert d.lines[..i + 1][..i] == d.lines[..i];
        text := text + d.lines[i];
        i := i + 1;
      }
      assert d.lines[..|d.lines|] == d.lines;
      content := Some(text);
      loaded := true;
      return None;
    }
  }

  /** Loading a file, appending its own lines to it on disk and loading it again: the second
      load reads the first text twice, records the new mtime and leaves the file fresh. */
  method ReloadAfterAppend(f: RigFile, fs: FileSystem, mtime: int) returns (first: string, second: string)
    requires f.Valid() && f.file in fs
    modifies f
    ensures first == Concat(fs[f.file].lines) && second == first + first
    ensures f.loaded && f.content == Some(second) && f.modified == Some(mtime)
    ensures f.Modified(fs[f.file := Disk(fs[f.file].lines + fs[f.file].lines, mtime)]) == Success(false)
  {
    var e := f.Load(fs);
    first := f.content.value;
    var lines := fs[f.file].lines;
    var fs' := fs[f.file := Disk(lines + lines, mtime)];
    e := f.Load(fs');
    second := f.content.value;
    ConcatAppend(lines, lines);
  }

  // ---------------------------------------------------------------- identity of a template

  /** What a template needs of its domain: its name and its directory. */
  datatype Domain = Domain(name: string, path: string)

  const DefaultFormat: string := "htm"
  const RigExtension: string := "rig"

  /** The symbols of BASIC_TYPES. */
  function KindName(k: TemplateKind): (r: string)
    ensures r in ["layout", "block", "static"]
  {
    match k
    case LayoutType => "layout"
    case BlockType => "block"
    case StaticType => "static"
  }

  /** `type=`: one of BASIC_TYPES, or ArgumentError. */
  function KindOf(t: string): (r: Result<TemplateKind, Err>)
    ensures r.Success? <==> t in ["layout", "block", "static"]
    ensures r.Success? ==> KindName(r.value) == t
    ensures r.Failure? ==> r.error == ArgumentError(t + " is not a Rig block")
  {
    if t == "layout" then Success(LayoutType)
    else if t == "block" then Success(BlockType)
    else if t == "static" then Success(StaticType)
    else Failure(ArgumentError(t + " is not a Rig block"))
  }

  lemma KindRoundTrip(k: TemplateKind)
    ensures KindOf(KindName(k)) == Success(k)
  {
  }

  /** `name.downcase.split('.')`: the first part is the subdomain when there are several,
      the last part is the name (nil, which interpolates as "", when there is none). */
  function NameParts(name: string): (r: (Option<string>, string))
  {
    var parts := Split(Downcase(name), ".");
    (if |parts| > 1 then Some(parts[0]) else None, if |parts| == 0 then "" else parts[|parts| - 1])
  }

  function DowncaseAll(parts: seq<string>): (r: seq<string>)
    ensures |r| == |parts| && forall k :: 0 <= k < |parts| ==> r[k] == Downcase(parts[k])
  {
    seq(|parts|, k requires 0 <= k < |parts| => Downcase(parts[k]))
  }

  lemma {:induction false} DowncaseConcat(a: string, b: string)
    ensures Downcase(a + b) == Downcase(a) + Downcase(b)
    decreases |a|
  {
    if a == [] {
      assert a + b == b;
    } else {
      assert (a + b)[0] == a[0] && (a + b)[1..] == a[1..] + b;
      DowncaseConcat(a[1..], b);
    }
  }

  /** Downcasing a dotted name downcases each part and keeps the dots. */
  lemma {:induction false} DowncaseJoin(parts: seq<string>)
    ensures Downcase(Join(parts, ".")) == Join(DowncaseAll(parts), ".")
    decreases |parts|
  {
    if |parts| > 1 {
      var rest := parts[1..];
      DowncaseConcat(parts[0] + ".", Join(rest, "."));
      DowncaseConcat(parts[0], ".");
      DowncaseJoin(rest);
      assert DowncaseAll(parts)[1..] == DowncaseAll(rest);
    }
  }

  /** A name written as dot-free parts, the last one not empty: the subdomain is the first
      part and the name the last, both downcased (the parts between are dropped). */
  lemma {:induction false} NamePartsOfJoin(parts: seq<string>)
    requires |parts| > 0 && parts[|parts| - 1] != ""
    requires forall k :: 0 <= k < |parts| ==> '.' !in parts[k]
    ensures NameParts(Join(parts, ".")) ==
              (if |parts| > 1 then Some(Downcase(parts[0])) else None, Downcase(parts[|parts| - 1]))
  {
    var low := DowncaseAll(parts);
    DowncaseJoin(parts);
    assert forall k :: 0 <= k < |low| ==> '.' !in low[k];
    FieldsOfJoin(low, '.');
    assert low[|low| - 1] != "" by { assert |low[|low| - 1]| == |parts[|parts| - 1]|; }
  }

  /** `path`: `<domain path>/rig/<type>[/<subdomain>]`. */
  function PathOf(domain: Domain, kind: TemplateKind, subdomain: Option<string>): string {
    domain.path + "/rig/" + KindName(kind) + (if subdomain.Some? then "/" + subdomain.value else "")
  }

  /** The name, subdomain, kind, domain and format a template is made with. */
  datatype Ident = Ident(name: string, subdomain: Option<string>, kind: TemplateKind, domain: Domain, format: string)

  /** The file of a template: `<path>/<name>.rig.<format>`. */
  function Filename(id: Ident): string {
    PathOf(id.domain, id.kind, id.subdomain) + "/" + id.name + "." + RigExtension + "." + id.format
  }

  /** Templates of two kinds never share a file: the kind is spelled right after `/rig/`. */
  lemma KindsHaveTheirOwnFiles(a: Ident, b: Ident)
    requires a.domain == b.domain && a.kind != b.kind
    ensures Filename(a) != Filename(b)
  {
    var n := |a.domain.path| + 5;
    assert Filename(a)[n] == KindName(a.kind)[0];
    assert Filename(b)[n] == KindName(b.kind)[0];
  }

  /** A layout `product.list` of a domain in `/app`, in the default format. */
  lemma SubdomainFilename()
    ensures Filename(Ident("list", Some("product"), LayoutType, Domain("shop", "/app"), DefaultFormat))
            == "/app/rig/layout/product/list.rig.htm"
  {
  }

  /** Template.new as far as it is values: the params are read first, then the type is
      checked; domain and format come from the arguments, else from the parent, and the
      format defaults to htm without a parent; there must be a domain to build the path.
      `parent` is the parent's domain and format. */
  function Identify(name: string, rigType: string, domain: Option<Domain>, parent: Option<(Option<Domain>, string)>,
                    format: Option<string>, params: Option<string>): (r: Result<Ident, Err>)
    ensures ParamsError(params).Some? ==> r == Failure(ParamsError(params).value)
    ensures ParamsError(params).None? && KindOf(rigType).Failure? ==> r == Failure(KindOf(rigType).error)
    ensures r.Success? ==> KindName(r.value.kind) == rigType
    ensures r.Success? ==> (r.value.subdomain, r.value.name) == NameParts(name)
    ensures r.Success? && format.Some? ==> r.value.format == format.value
    ensures r.Success? && format.None? ==> r.value.format == if parent.Some? then parent.value.1 else DefaultFormat
    ensures r.Success? && domain.Some? ==> r.value.domain == domain.value
    ensures r.Failure? && ParamsError(params).None? && KindOf(rigType).Success? ==> r == Failure(NoMethod("path"))
  {
    if ParamsError(params).Some? then Failure(ParamsError(params).value)
    else if KindOf(rigType).Failure? then Failure(KindOf(rigType).error)
    else
      var parts := NameParts(name);
      var dom := if domain.Some? then domain else if parent.Some? then parent.value.0 else None;
      var fmt := if format.Some? then format.value else if parent.Some? then parent.value.1 else DefaultFormat;
      if dom.None? then Failure(NoMethod("path"))
      else Success(Ident(parts.1, parts.0, KindOf(rigType).value, dom.value, fmt))
  }

  // ---------------------------------------------------------------- Template

  class Template {
    const name: string
    const subdomain: Option<string>
    const kind: TemplateKind
    const domain: Domain
    const format: string
    const src: RigFile          // the File part of the object
    var params: Parameters
    var parser: ParserNext?

    function Id(): Ident {
      Ident(name, subdomain, kind, domain, format)
    }

    /** The file is the one the identity names; the params use `,` and `=`. */
    predicate Valid()
      reads this, src, params
    {
      src.Valid() && src.file == Filename(Id()) && params.Valid() && params.outer == "," && params.inner == "="
    }

    constructor Make(id: Ident, params: Parameters)
      requires params.Valid() && params.outer == "," && params.inner == "="
      ensures Id() == id && this.params == params && parser == null
      ensures fresh(src) && !src.loaded && src.content.None? && src.modified.None?
      ensures Valid()
    {
      name := id.name;
      subdomain := id.subdomain;
      kind := id.kind;
      domain := id.domain;
      format := id.format;
      src := new RigFile(Filename(id));
      this.params := params;
      parser := null;
    }

    /** `dup`: a new object with the same instance variables; the file state is copied, the
        parser and the params object are shared. */
    constructor Copy(t: Template)
      ensures fresh(src) && Copies(this, t) && params == t.params
    {
      name := t.name;
      subdomain := t.subdomain;
      kind := t.kind;
      domain := t.domain;
      format := t.format;
      src := new RigFile.Clone(t.src);
      params := t.params;
      parser := t.parser;
    }

    /** Template.new(name:, type:, domain:, parent:, format:, params:). */
    static method New(name: string, rigType: string, domain: Option<Domain>, parent: Option<Template>,
                      format: Option<string>, params: Option<string>) returns (r: Result<Template, Err>)
      ensures var p := if parent.Some? then Some((Some(parent.value.domain), parent.value.format)) else None;
              var id := Identify(name, rigType, domain, p, format, params);
              (r.Success? <==> id.Success?) && (r.Failure? ==> r.error == id.error)
              && (r.Success? ==> r.value.Id() == id.value)
      ensures r.Success? ==> fresh(r.value) && fresh(r.value.src) && fresh(r.value.params) && r.value.Valid()
      ensures r.Success? ==> r.value.parser == null && !r.value.src.loaded
      ensures r.Success? && params.Some? ==> r.value.params.data == SetData([], params.value, ",", "=").0
      ensures r.Success? && params.None? ==> r.value.params.data == []
    {
      var p := if parent.Some? then Some((Some(parent.value.domain), parent.value.format)) else None;
      var id := Identify(name, rigType, domain, p, format, params);
      var ps := Parameters.New(params, ",", "=");
      if ps.Failure? {
        return Failure(ps.error);
      }
      if id.Failure? {
        return Failure(id.error);
      }
      var t := new Template.Make(id.value, ps.value);
      return Success(t);
    }

    /** `params=`: a new Parameters object from the string, on this object only. */
    method SetParams(value: Option<string>) returns (e: Option<Err>)
      modifies this`params
      ensures e == ParamsError(value)
      ensures e.None? ==> fresh(params) && params.Valid() && params.outer == "," && params.inner == "="
      ensures e.None? && value.Some? ==> params.data == SetData([], value.value, ",", "=").0
      ensures e.None? && value.None? ==> params.data == []
      ensures e.Some? ==> params == old(params)
    {
      var ps := Parameters.New(value, ",", "=");
      if ps.Failure? {
        return Some(ps.error);
      }
      params := ps.value;
      return None;
    }

    /** parse!: a new ParserNext over the loaded content. ParserNext gives the parse no
        current template (its `template` is never set), so the self-inclusion guard of
        obtain_block does not apply; a template never loaded has nil content and the first
        `gsub!` raises. */
    method Parse(fam: Family, bindable: bool, first: nat) returns (r: Result<nat, Err>)
      modifies this`parser
      ensures src.content.None? ==> r == Failure(NoMethod("gsub!")) && parser == old(parser)
      ensures src.content.Some? ==> var o := ParseText(Env(fam, None), bindable, src.content.value, first);
              r == Success(o.1) && parser != null && fresh(parser) && parser.env == Env(fam, None) && parser.bindable == bindable
              && parser.Snapshot() == o.0 && parser.Valid()
    {
      if src.content.None? {
        return Failure(NoMethod("gsub!"));
      }
      var p, next := ParserNext.ParseNew(Env(fam, None), src.content.value, bindable, first);
      parser := p;
      return Success(next);
    }

    /** load!.parse!. */
    method LoadParse(fs: FileSystem, fam: Family, bindable: bool, first: nat) returns (r: Result<nat, Err>)
      requires src.Valid()
      modifies src, this`parser
      ensures src.file !in fs ==> r == Failure(NotFound(src.file)) && parser == old(parser)
      ensures src.file !in fs ==> src.loaded == old(src.loaded) && src.content == old(src.content)
      ensures src.file in fs ==> Loaded(this, fs) && r.Success? && fresh(parser)
      ensures src.file in fs ==> parser.env == Env(fam, None) && parser.bindable == bindable
      ensures src.Valid() && (old(Valid()) ==> Valid())
    {
      var e := src.Load(fs);
      if e.Some? {
        return Failure(e.value);
      }
      r := Parse(fam, bindable, first);
    }

    /** render: parse first unless there is a parser already, then render the parser's
        tokens against the binder's data. */
    method Render(ctx: Context, b: Value, fuel: nat, fam: Family, bindable: bool, first: nat)
      returns (r: Rendering, next: nat)
      modifies this`parser
      ensures old(parser) != null ==> parser == old(parser) && next == first
      ensures old(parser) == null && src.content.None? ==> r == Failure(NoMethod("gsub!")) && parser == null
      ensures old(parser) == null && src.content.Some? ==>
                fresh(parser) && parser.Snapshot() == ParseText(Env(fam, None), bindable, src.content.value, first).0
      ensures parser != null ==> r == RenderParsed(parser.env.fam, ctx, parser.Snapshot(), b, fuel)
    {
      next := first;
      if parser == null {
        var p := Parse(fam, bindable, first);
        if p.Failure? {
          return Failure(p.error), first;
        }
        next := p.value;
      }
      r := parser.Render(ctx, b, fuel);
    }

    /** `Template.new(...).load!.parse!`: a new template, loaded from `fs` and parsed. */
    static method Build(name: string, rigType: string, domain: Option<Domain>, parent: Option<Template>,
                        format: Option<string>, params: Option<string>,
                        fs: FileSystem, fam: Family, bindable: bool, first: nat)
      returns (r: Result<Template, Err>, next: nat)
      ensures var p := if parent.Some? then Some((Some(parent.value.domain), parent.value.format)) else None;
              var id := Identify(name, rigType, domain, p, format, params);
              (id.Failure? ==> r == Failure(id.error))
              && (id.Success? ==> (r.Success? <==> Filename(id.value) in fs))
              && (id.Success? && r.Failure? ==> r.error == NotFound(Filename(id.value)))
              && (r.Success? ==> r.value.Id() == id.value)
              && (r.Failure? <==> BuildError(id, fs).Some?) && (r.Failure? ==> r.error == BuildError(id, fs).value)
      ensures r.Success? ==> fresh(r.value) && fresh(r.value.src) && fresh(r.value.parser) && r.value.Valid()
      ensures r.Success? ==> Loaded(r.value, fs) && r.value.parser.env == Env(fam, None) && r.value.parser.bindable == bindable
      ensures r.Success? && params.Some? ==> r.value.params.data == SetData([], params.value, ",", "=").0
      ensures r.Success? && params.None? ==> r.value.params.data == []
    {
      var t := New(name, rigType, domain, parent, format, params);
      if t.Failure? {
        return Failure(t.error), first;
      }
      var tpl := t.value;
      var p := tpl.LoadParse(fs, fam, bindable, first);
      if p.Failure? {
        return Failure(p.error), first;
      }
      return Success(tpl), p.value;
    }

    /** `dup.tap { |c| c.params = params if params }`: a copy of this template, with new
        params on the copy when they are given. */
    method Dup(params: Option<string>) returns (r: Result<Template, Err>)
      ensures params.Some? ==> (r.Failure? <==> ParamsError(params).Some?)
      ensures params.Some? && r.Failure? ==> r.error == ParamsError(params).value
      ensures params.None? ==> r.Success? && r.value.params == this.params
      ensures r.Success? ==> fresh(r.value) && fresh(r.value.src) && Copies(r.value, this)
      ensures r.Success? && params.Some? ==> fresh(r.value.params) && r.value.params.data == SetData([], params.value, ",", "=").0
      ensures r.Success? && params.Some? ==> r.value.params.outer == "," && r.value.params.inner == "="
    {
      var c := new Template.Copy(this);
      if params.Some? {
        var e := c.SetParams(params);
        if e.Some? {
          return Failure(e.value);
        }
      }
      return Success(c);
    }
  }

  /** A template whose file is loaded from `fs` as it is now and whose parser is set. */
  predicate Loaded(t: Template, fs: FileSystem)
    reads t, t.src
  {
    t.src.file in fs && t.src.loaded && t.src.content == Some(Concat(fs[t.src.file].lines))
    && t.src.modified == Some(fs[t.src.file].mtime) && t.parser != null
  }

  /** A template ready to hand out: loaded and parsed. */
  predicate Ready(t: Template)
    reads t, t.src
  {
    t.src.Valid() && t.src.loaded && t.parser != null
  }

  /** `c` is a `dup` of `m`: same identity, same file state, same parser. */
  predicate Copies(c: Template, m: Template)
    reads c, m, c.src, m.src
  {
    c.Id() == m.Id() && c.src.file == m.src.file && c.src.loaded == m.src.loaded
    && c.src.content == m.src.content && c.src.modified == m.src.modified && c.parser == m.parser
  }

  /** What `Template.new(...).load!.parse!` raises for an identity: the identity's own error,
      NotFound when its file is missing, nothing when the build succeeds. */
  function BuildError(id: Result<Ident, Err>, fs: FileSystem): (e: Option<Err>)
    ensures e.None? <==> id.Success? && Filename(id.value) in fs
    ensures id.Failure? ==> e == Some(id.error)
    ensures id.Success? && e.Some? ==> e == Some(NotFound(Filename(id.value)))
  {
    if id.Failure? then Some(id.error)
    else if Filename(id.value) in fs then None
    else Some(NotFound(Filename(id.value)))
  }

  /** A template just loaded from `fs` is not stale against it: the next `modified?` is false. */
  lemma LoadedFresh(t: Template, fs: FileSystem)
    requires Loaded(t, fs)
    ensures t.src.Modified(fs) == Success(false)
  {
    FreshAfterLoad(fs, t.src.file);
  }

  // ---------------------------------------------------------------- the Engine of template.rb

  /** The Engine class of template.rb: a pool looked up by `<type>__<name>` and never
      written, so each call makes its template afresh. */
  class Engine {
    const domain: Domain
    var pool: map<string, Template>

    constructor (domain: Domain)
      ensures this.domain == domain && pool == map[]
    {
      this.domain := domain;
      pool := map[];
    }

    /** The pooled template under a key and its file: all a request for that key may change. */
    function Pooled(key: string): set<object>
      reads this
    {
      if key in pool then {pool[key], pool[key].src} else {}
    }

    /** rig_template: the pooled template or a new one; it is handed back as it is when it is
        loaded and not stale, and otherwise loaded and parsed first. */
    method RigTemplate(name: string, rigType: string, format: Option<string>, params: Option<string>,
                       parent: Option<Template>, fs: FileSystem, fam: Family, bindable: bool, first: nat)
      returns (r: Result<Template, Err>, next: nat)
      requires forall t :: t in pool.Values ==> t.src.Valid()
      modifies Pooled(rigType + "__" + name)
      ensures pool == old(pool)
      ensures var key := rigType + "__" + name;
              key !in pool ==>
                var p := if parent.Some? then Some((Some(parent.value.domain), parent.value.format)) else None;
                var id := Identify(name, rigType, Some(domain), p, format, params);
                (r.Failure? <==> BuildError(id, fs).Some?) && (r.Failure? ==> r.error == BuildError(id, fs).value)
                && (r.Success? ==> fresh(r.value) && Loaded(r.value, fs) && r.value.Valid() && r.value.Id() == id.value)
      ensures var key := rigType + "__" + name;
              key in pool && old(pool[key].src.loaded) && old(pool[key].src.Modified(fs)) == Success(false)
              ==> r == Success(pool[key]) && unchanged(pool[key], pool[key].src)
      ensures var key := rigType + "__" + name;
              key in pool && old(pool[key].src.loaded) && old(pool[key].src.Modified(fs)).Failure?
              ==> r == Failure(old(pool[key].src.Modified(fs)).error) && unchanged(pool[key], pool[key].src)
      ensures var key := rigType + "__" + name;
              key in pool && (!old(pool[key].src.loaded) || old(pool[key].src.Modified(fs)) == Success(true)) ==>
                (r.Success? <==> pool[key].src.file in fs)
                && (r.Success? ==> r == Success(pool[key]) && Loaded(pool[key], fs))
                && (r.Failure? ==> r == Failure(NotFound(pool[key].src.file)))
      ensures r.Success? ==> r.value.src.Modified(fs) == Success(false)
    {
      var key := rigType + "__" + name;
      var tpl: Template;
      if key in pool {
        tpl := pool[key];
      } else {
        var t := Template.New(name, rigType, Some(domain), parent, format, params);
        if t.Failure? {
          return Failure(t.error), first;
        }
        tpl := t.value;
      }
      if tpl.src.loaded {
        var m := tpl.src.Modified(fs);
        if m.Failure? {
          return Failure(m.error), first;
        }
        if !m.value {
          return Success(tpl), first;
        }
      }
      var p := tpl.LoadParse(fs, fam, bindable, first);
      if p.Failure? {
        return Failure(p.error), first;
      }
      LoadedFresh(tpl, fs);
      return Success(tpl), p.value;
    }
  }
}
