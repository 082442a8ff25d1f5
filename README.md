# tzispa_rig: the Rig template engine, modelled in Dafny

Rig is the template language of the Tzispa web framework. A template is a text file, such as
`<domain>/rig/layout/product/list.rig.htm`. It mixes plain markup with Rig tags:
- flags `<flags:[k=v]/>`;
- metas `{%id%}` and vars `<var:id/>`;
- url and api builders `<url:layout[k=v]/>` and `<api:handler:verb/>`;
- loops `<loop:id>…</loop:id>` and conditionals `<ife:id>…<else:id/>…</ife:id>`;
- inclusions of other templates: `<blk:name/>`, `<iblk:test:then:else/>` and `<static:name/>`.

A parser (`ParserNext`) turns these tags into tokens in fixed stages: flags, then statements,
expressions, url builders and inclusions. Each token leaves an anchor (`@@hex@@` or `$$hex$$`)
in the parser's working text. Rendering swaps every anchor for the token's rendering against
a binder. The binder is the object whose `data` answers the template's attribute tags. Loops
render their body once per item of a loop binder. Templates are loaded from disk, cached by the
Factory and the Engine, reloaded when the file changes, and handed out as copies that carry the
request's parameters.

The project models that core. Its modules, with the Ruby files they follow:

| module | file | flavour |
|---|---|---|
| `Syntax` | `syntax.dfy`: the regular expressions of `syntax.rb`, as hand-written recognisers proved sound and complete against the tag forms | pure |
| `TokenTree` | `tokens.dfy`: the token classes of `parsernext.rb`, `token.rb` and `tokens/*.rb`, `instance`, anchors, `obtain_block`, `attribute_tags`, `loop_parser` | pure |
| `Parse`, `ParseFacts` | `parse.dfy`, `parse_facts.dfy`: `parse!` as a function of the text, and what it guarantees | pure |
| `Parser` | `parser.dfy`: the `ParserNext` object, with `parse!`, its stages and `render` as methods proved against `Parse` and `Render` | imperative |
| `Render`, `RenderFacts` | `render.dfy`, `render_facts.dfy`: every token's `render` and `ParserNext#render`, and their properties | pure |
| `Params` | `params.dfy`: `Parameters` as a class over an insertion-ordered hash | imperative |
| `Binders` | `binders.dfy`: `binder.rb` and `template_binder.rb` | mixed |
| `Templates` | `templates.dfy`: `File`, `Template` and the small `Engine` of `template.rb` | imperative |
| `Factories` | `factory.dfy`: the `Factory` cache | imperative |
| `Engines` | `engine.dfy`: the application `Engine` and its cache | imperative |
| `Values`, `Strings`, `Seqs`, `Wrappers` | Ruby values and errors, string operations (`split`, `gsub`, `downcase`, hex), `uniq`, Option/Result | pure |

Two generations of token classes share one parser. The `ParsedEntity` classes of
`parsernext.rb` use `@@` anchors and the placeholder `id:unknown!!`. The classes of `token.rb`
and `tokens/` use `$$` anchors and the bare id as placeholder. They escape vars through the
context, guard against a block including itself, and give `blk` and `static` tokens an `id`.
A `Family` value selects between the two wherever they differ.

The model uses these conventions:
- Object ids, which anchors are made from, come from a counter. A parse takes the first free
  id and returns the next one.
- The file system is a map from path to lines and mtime. It is handed to every operation that
  reads it.
- A Ruby exception is a `Failure` naming what raised.
- The context's url, api, escape and inclusion builders are functions held in a `Context`
  value.

## Model

| member | source | states |
|---|---|---|
| Syntax.MatchFlags | lib/tzispa/rig/syntax.rb:7-9 | a flags match ends after its start and keeps its bracketed pair list as the group the parser stores |
| Syntax.FlagsSound | lib/tzispa/rig/syntax.rb:7-9 | every flags match spans exactly `<flags:[k=v(,k=v)*]/>` with a well-formed pair list |
| Syntax.FlagsComplete | lib/tzispa/rig/syntax.rb:7-9 | every span of the flags form is matched at its start, to its end, with that list |
| Syntax.MetaSound | lib/tzispa/rig/syntax.rb:12 | a meta match is `{%id%}` with a non-empty id free of `%` |
| Syntax.MetaComplete | lib/tzispa/rig/syntax.rb:12 | every `{%id%}` span with such an id is matched exactly, id included |
| Syntax.MatchMeta | lib/tzispa/rig/syntax.rb:12 | the meta recogniser at a position: a match ends inside the text, after the position, and is a meta construct (its exact form is MetaSound and MetaComplete) |
| Syntax.FormatSound | lib/tzispa/rig/syntax.rb:13 | what the var format scan accepts is `[%`, an optional capital, digits, a lower-case letter, `]` |
| Syntax.FormatComplete | lib/tzispa/rig/syntax.rb:13 | every such format is accepted in full |
| Syntax.VarSound | lib/tzispa/rig/syntax.rb:13 | a var match is `<var[format]:id/>` with a word id and an optional format, both as the groups give them |
| Syntax.VarComplete | lib/tzispa/rig/syntax.rb:13 | every var span, with or without a format, is matched exactly with its format and id |
| Syntax.MatchVar | lib/tzispa/rig/syntax.rb:13 | the var recogniser: a match ends inside the text and is a var construct |
| Syntax.AppAndLayout | lib/tzispa/rig/syntax.rb:17 | the application a url match reads is `#word` and its layout has no `[` or `/` |
| Syntax.MatchUrl | lib/tzispa/rig/syntax.rb:17 | a url match names `url` or `purl`, a `#word` application when there is one, a non-empty layout free of `[` and `/`, and a valid pair list when it has params |
| Syntax.AppAndHandler | lib/tzispa/rig/syntax.rb:18 | the application an api match reads is `#word` and its handler has no `:` |
| Syntax.MatchApi | lib/tzispa/rig/syntax.rb:18 | an api match names `api` or `sapi`, a `#word` application when there is one, a non-empty handler without `:`, a non-empty verb and predicate without `:` or `/`, and a non-empty sufix without `/` |
| Syntax.LoopSound | lib/tzispa/rig/syntax.rb:21 | a loop match is `<loop:id>body</loop:id>` with a word id |
| Syntax.LoopShortest | lib/tzispa/rig/syntax.rb:21 | the loop body is the shortest: no closing tag of the same id starts inside it (the lazy `.*?`) |
| Syntax.LoopComplete | lib/tzispa/rig/syntax.rb:21 | every span of the loop form makes the recogniser match at its start, with that id |
| Syntax.IfeSound | lib/tzispa/rig/syntax.rb:21 | an ife match is `<ife:id>then</ife:id>` or `<ife:id>then<else:id/>else</ife:id>` |
| Syntax.IfeThenShortest | lib/tzispa/rig/syntax.rb:21 | the then-body ends at the first position where a closing tag, or an else tag with a later closing tag, starts |
| Syntax.IfeElseShortest | lib/tzispa/rig/syntax.rb:21 | the else-body ends at the first closing tag after the else tag |
| Syntax.IfeComplete | lib/tzispa/rig/syntax.rb:21 | every span of the ife form makes the recogniser match at its start, with that test id |
| Syntax.StatementSpan | lib/tzispa/rig/syntax.rb:21 | a statement is matched at a position iff a loop span or an ife span starts there, and the match is one of those two forms |
| Syntax.MatchStatement | lib/tzispa/rig/syntax.rb:21 | the statement recogniser: a match ends inside the text, after the position, and each of its bodies is shorter than the span |
| Syntax.MatchLoop | lib/tzispa/rig/syntax.rb:21 | the loop alternative: a match is a loop construct whose body is shorter than the span (LoopSound, LoopShortest and LoopComplete give its form) |
| Syntax.MatchIfe | lib/tzispa/rig/syntax.rb:21 | the ife alternative: a match is an ife construct whose bodies are shorter than the span (IfeSound, IfeThenShortest, IfeElseShortest and IfeComplete give its form) |
| Syntax.TemplateSound | lib/tzispa/rig/syntax.rb:23 | an inclusion match is a blk, an iblk with a word test, or a static, and each template id is `word(@word)?` |
| Syntax.BlkSound | lib/tzispa/rig/syntax.rb:23 | a blk match spans exactly `<blk:id[params]/>` |
| Syntax.BlkComplete | lib/tzispa/rig/syntax.rb:23 | every span of the blk form is matched in full at its start |
| Syntax.IBlkComplete | lib/tzispa/rig/syntax.rb:23 | every span of the iblk form `<iblk:test:ref:ref/>` is matched in full at its start, with its test and both references |
| Syntax.StaticComplete | lib/tzispa/rig/syntax.rb:23 | every span of the static form is matched in full at its start |
| Syntax.MatchTemplate | lib/tzispa/rig/syntax.rb:23 | the templates recogniser: a match ends inside the text and is a blk, iblk or static construct |
| Syntax.MatchBlk | lib/tzispa/rig/syntax.rb:23 | the blk alternative: a match is a blk construct |
| Syntax.MatchIBlk | lib/tzispa/rig/syntax.rb:23 | the iblk alternative: a match is an iblk construct |
| Syntax.MatchStatic | lib/tzispa/rig/syntax.rb:23 | the static alternative: a match is a static construct |
| Syntax.AnchorSound | lib/tzispa/rig/parsernext.rb:16 | an anchor match is the delimiter, one or more hex digits, and the delimiter |
| Syntax.AnchorComplete | lib/tzispa/rig/token.rb:11 | every delimiter–hex–delimiter string is matched as a whole |
| Syntax.MatchAnchor | lib/tzispa/rig/parsernext.rb:16 | an anchor match at a position ends after it and inside the text |
| TokenTree.Delim | lib/tzispa/rig/parsernext.rb:16 | the anchor delimiter is two characters, `@@` for the ParsedEntity classes and `$$` for the token classes |
| TokenTree.AnchorMatches | lib/tzispa/rig/parsernext.rb:49-52 | every anchor a token leaves is matched in full by RE_ANCHOR |
| TokenTree.AnchorInjective | lib/tzispa/rig/token.rb:44-46 | distinct object ids give distinct anchors |
| TokenTree.Placeholder | lib/tzispa/rig/parsernext.rb:75-77 | an unanswered tag shows as `id:unknown!!` in one family and as the bare id in the other |
| TokenTree.TagOf | lib/tzispa/rig/parsernext.rb:424 | each construct gets one of the nine tags `instance` dispatches on |
| TokenTree.Instance | lib/tzispa/rig/parsernext.rb:26-47 | a token is made exactly when the tag is known and names the construct matched; it is that construct's token with the given object id and every group of the match; loops and ifes hold their parsed bodies, inclusions the template obtain_block asks for |
| TokenTree.ObtainBlock | lib/tzispa/rig/tokens/block.rb:38-52 | `__empty__` is the empty template and the id of the block being parsed is that block itself, both only for the token classes; everything else is fetched as a block of that name |
| TokenTree.Ids | lib/tzispa/rig/parsernext.rb:380-381 | the ids collected are exactly those of the tokens that answer `id` |
| TokenTree.AttributeTagsMembers | lib/tzispa/rig/parsernext.rb:379-385 | a tag is an attribute tag iff some token has it as id or some ife of the parser lists it |
| TokenTree.IfeTagsMembers | lib/tzispa/rig/parsernext.rb:220-222 | an ife's tags are its test and the tags of its two branches |
| TokenTree.AttributeTagsOrder | lib/tzispa/rig/parsernext.rb:379-385 | the attribute tags have no repetitions and keep the order of first occurrence |
| TokenTree.AttributeTags | lib/tzispa/rig/parsernext.rb:379-385 | `attribute_tags`: the `uniq` of this level's token ids followed by the ifes' tags (AttributeTagsMembers and AttributeTagsOrder state what that set and order are) |
| TokenTree.LoopsNamed | lib/tzispa/rig/parsernext.rb:388 | the loops selected at one level are exactly the loop tokens with that id |
| TokenTree.LoopParserMembers | lib/tzispa/rig/parsernext.rb:387-391 | `loop_parser(id)` finds exactly the loops named `id` reachable through ife branches without entering a loop body |
| TokenTree.LoopParser | lib/tzispa/rig/parsernext.rb:387-391 | `loop_parser(id)`: this level's loops with that id followed by those found in the ife branches (LoopParserMembers states which) |
| Parse.Recognise | lib/tzispa/rig/parsernext.rb:395-439 | each stage recognises only its own constructs, and statement bodies are shorter than their span |
| Parse.InstanceStage | lib/tzispa/rig/parsernext.rb:26-47 | the token made from what a stage recognises exists, belongs to that stage and carries the given id |
| Parse.FlagsScan | lib/tzispa/rig/parsernext.rb:395-400 | parse_flags never lengthens the text and keeps the list of the last flags group |
| Parse.Scan | lib/tzispa/rig/parsernext.rb:402-420 | one `gsub!` appends tokens of its stage only, numbered consecutively, whose anchors stand in the new text |
| Parse.StmtScan | lib/tzispa/rig/parsernext.rb:422-429 | parse_statements makes only loop and ife tokens; the ids of the tokens and their bodies form one consecutive range; every anchor stands in the text |
| Parse.ParseBodies | lib/tzispa/rig/parsernext.rb:186-218 | the child parsers of a statement get one parse per body, numbered consecutively |
| Parse.ParseText | lib/tzispa/rig/parsernext.rb:359-369 | parse! hands out exactly the ids from `first` up to the returned next id, in tree order |
| ParseFacts.StagesSorted | lib/tzispa/rig/parsernext.rb:359-369 | six stage outputs, joined in order, are in stage order |
| ParseFacts.ParseOrder | lib/tzispa/rig/parsernext.rb:359-369 | the parsed tokens come in stage order, and a non-bindable parser makes no loop, ife, meta or var token |
| ParseFacts.LevelIncreasing | lib/tzispa/rig/parsernext.rb:49-52 | the object ids of a parser's tokens strictly increase inside the range handed out |
| ParseFacts.ParseAnchorsDistinct | lib/tzispa/rig/parsernext.rb:49-52 | the anchors of one parser's tokens are pairwise distinct |
| ParseFacts.StmtTake | lib/tzispa/rig/parsernext.rb:422-429 | a statement's whole span becomes its token's anchor and the scan resumes after it, with the ids after its bodies' |
| ParseFacts.StatementBodies | lib/tzispa/rig/parsernext.rb:186-218 | a loop or ife token holds its bodies as parsed by fresh bindable parsers, then-body numbered after the token and else-body after the then-body |
| Parser.ParserNext.constructor | lib/tzispa/rig/parsernext.rb:346-353 | a new parser has the text, no tokens, no children, no flags, and `bindable` from the argument or else the parent |
| Parser.ParserNext.IsEmpty | lib/tzispa/rig/parsernext.rb:355-357 | `empty?` holds iff there are no tokens |
| Parser.ParserNext.ParseFlags | lib/tzispa/rig/parsernext.rb:395-400 | the text and flags become FlagsScan's result, the old flags staying when there is no group; nothing else changes |
| Parser.ParserNext.ParseStatements | lib/tzispa/rig/parsernext.rb:422-429 | the text becomes StmtScan's and its tokens and children are appended; no inclusion is added |
| Parser.ParserNext.ScanStage | lib/tzispa/rig/parsernext.rb:402-420 | the text becomes Scan's and its tokens and children are appended; only the last stage adds inclusions |
| Parser.ParserNext.Parse | lib/tzispa/rig/parsernext.rb:359-369 | the parser's new state is ParseText's parse of its old text, appended to what it held; the memo stays valid |
| Parser.ParserNext.ParseNew | lib/tzispa/rig/template.rb:90-94 | a new parser over the text, after parse!, holds exactly ParseText's parse and the ids it used |
| Parser.ParserNext.ParseAsWritten | lib/tzispa/rig/parsernext.rb:431-432 | as written, parse! raises at `RIG_TEMPLATES.values` after the earlier stages, with no inclusion token made |
| Parser.ParserNext.AttributeTagsOnce | lib/tzispa/rig/parsernext.rb:379-385 | the memoised attribute tags are the tags of the parse, and the memo keeps them |
| Parser.ParserNext.Render | lib/tzispa/rig/parsernext.rb:371-377 | the render loop yields RenderParsed of the parse and leaves the parser unchanged |
| Render.Cat | lib/tzispa/rig/parsernext.rb:192-197 | two renderings in sequence: the first failure, or the texts joined |
| Render.FirstWithAnchor | lib/tzispa/rig/parsernext.rb:133-137 | the token `bind_value` picks is the first one carrying the anchor, and none when no token does |
| Render.Shown | lib/tzispa/rig/parsernext.rb:65-71 | a meta shows the value's `to_s`, failing where `to_s` is outside the model |
| Render.Escaped | lib/tzispa/rig/tokens/expression.rb:43-54 | a var shows the escaped value, or the value itself when escaping raises |
| Render.LoopItems | lib/tzispa/rig/parsernext.rb:191-198 | nil yields no items and a loop binder its items; false is skipped by the ParsedEntity loop and raises in the token one |
| Render.Included | lib/tzispa/rig/tokens/block.rb:23-27 | an inclusion succeeds iff its params bind, `params=` reads them and the binder has a context; otherwise it fails at the first of those steps (the binding's error, the Parameters error, NoMethodError for `context`); on success it is the copy rendered with the bound params |
| Render.OptCat | lib/tzispa/rig/parsernext.rb:155-160 | optional bindings succeed iff every binding present succeeds, giving their values |
| Render.UrlLinkAsWritten | lib/tzispa/rig/parsernext.rb:116-131 | as written, a binder without a context raises at `context`, then a purl with an application raises at `tp_h`; every other url is built by the context |
| Render.UrlLink | lib/tzispa/rig/parsernext.rb:116-131 | succeeds iff the binder has a context, and then is the context's builder applied to the kind, application, bound layout and bound params |
| Render.RenderLoop | lib/tzispa/rig/tokens/statement.rb:30-37 | the loop's append-per-item method computes the loop token's rendering |
| Render.BindValue | lib/tzispa/rig/parsernext.rb:133-137 | `bind_value`: text outside anchors kept, each anchor replaced by the rendering of the first token carrying it, a stray anchor failing at `render` on nil (BindValuePlain, BindValueAnchor, BindValueStrayAnchor) |
| Render.RenderToken | lib/tzispa/rig/parsernext.rb:56-335 | every token's `render`: Meta, Var, Loop, Ife and IBlk fail at `data` on a binder without it; each kind then renders as MetaRender, VarRender, LoopRender, IfeRender, BlockRender, IBlockRender and NoContextFails state |
| Render.RenderFrom | lib/tzispa/rig/parsernext.rb:371-377 | the `gsub!` loop of ParserNext#render: every token rendered in list order, its anchor replaced in the working text, the first failure stopping it (RenderFromSucceeds, RenderFromStops, RenderFromFirstFailure, RenderFromReplaces) |
| Render.RenderParsed | lib/tzispa/rig/parsernext.rb:371-377 | ParserNext#render: RenderFrom over the parser's own text from the first token |
| Render.RenderItems | lib/tzispa/rig/parsernext.rb:191-198 | a loop body rendered once per truthy item, in order, joined (RenderItemsAppend, RenderItemsFalsy, RenderItemsOne; RenderLoop is the loop of the source) |
| RenderFacts.RenderFromSucceeds | lib/tzispa/rig/parsernext.rb:371-377 | rendering succeeds iff every token renders, whether or not its anchor is still in the text |
| RenderFacts.RenderFromStops | lib/tzispa/rig/parsernext.rb:371-377 | a token that fails stops the render with its failure |
| RenderFacts.RenderFromFirstFailure | lib/tzispa/rig/parsernext.rb:371-377 | a failed render reports the failure of the first failing token |
| RenderFacts.RenderFromReplaces | lib/tzispa/rig/parsernext.rb:371-377 | a successful render replaces each token's anchor, in list order, by that token's rendering |
| RenderFacts.RenderNoTokens | lib/tzispa/rig/parsernext.rb:371-377 | a parser without tokens renders as its text |
| RenderFacts.BindValuePlain | lib/tzispa/rig/parsernext.rb:133-137 | a string without anchors binds to itself |
| RenderFacts.FirstWithDistinct | lib/tzispa/rig/parsernext.rb:135 | with distinct anchors, the first token carrying a token's anchor is that token |
| RenderFacts.BindValueAnchor | lib/tzispa/rig/parsernext.rb:133-137 | with distinct anchors, a token's anchor binds to that token's rendering |
| RenderFacts.BindValueStrayAnchor | lib/tzispa/rig/tokens/block.rb:31-36 | an anchor no token carries makes the binding call `render` on nil |
| RenderFacts.MetaRender | lib/tzispa/rig/parsernext.rb:65-71 | a meta renders the answered value's `to_s`, else the placeholder |
| RenderFacts.VarRender | lib/tzispa/rig/tokens/expression.rb:43-54 | a var renders the value, escaped for the token classes, else the placeholder |
| RenderFacts.LoopRender | lib/tzispa/rig/parsernext.rb:191-198 | a loop over a loop binder renders its body once per truthy item, and a missing tag renders nothing |
| RenderFacts.RenderItemsAppend | lib/tzispa/rig/parsernext.rb:194-196 | the items of two lists render as the first list's followed by the second's |
| RenderFacts.RenderItemsFalsy | lib/tzispa/rig/parsernext.rb:195 | nil and false items are skipped |
| RenderFacts.RenderItemsOne | lib/tzispa/rig/parsernext.rb:195 | one truthy item renders the body once with the item as binder |
| RenderFacts.IfeRender | lib/tzispa/rig/parsernext.rb:228-232 | an ife renders the then-parser when the test is truthy, else the else-parser or nothing |
| RenderFacts.BlockRender | lib/tzispa/rig/parsernext.rb:252-261 | blk and static fail with the binding's error, then with the Parameters error of the bound params, then with NoMethodError for `context` on a binder without one; otherwise they render their copy with the bound params |
| RenderFacts.NoContextFails | lib/tzispa/rig/template.rb:96-101 | rendered against a binder with no context (nil, for a template without a binder class), a blk, static, url or api token fails, and so does the whole parser |
| RenderFacts.IBlockRender | lib/tzispa/rig/tokens/block.rb:74-85 | iblk renders the then-block with its params on a truthy test, else the else-block with its params |
| RenderFacts.PurlWithApp | lib/tzispa/rig/parsernext.rb:124 | with a context, every purl with an application fails as written at `tp_h` and is built as meant; without one both fail at `context` |
| Params.Keys | lib/tzispa/rig/parameters.rb:37-39 | the keys of the hash, in order |
| Params.Position | lib/tzispa/rig/parameters.rb:21-23 | the place of a key, the first with that key, or none iff the key is absent |
| Params.Store | lib/tzispa/rig/parameters.rb:17-19 | a store keeps an existing key in place and appends a new one |
| Params.Piece | lib/tzispa/rig/parameters.rb:49-52 | a piece's key is its first inner part and its value the second, nil without one; a piece with no parts raises |
| Params.Read | lib/tzispa/rig/parameters.rb:50 | every piece is read on its own |
| Params.Load | lib/tzispa/rig/parameters.rb:50-53 | the `each` of setData: the pieces stored left to right, stopping at the first piece that raises (LoadOther, LoadLastWins, LoadAllSucceed) |
| Params.SetData | lib/tzispa/rig/parameters.rb:49-53 | setData: the raw string split on `outer`, each piece read and stored in turn |
| Params.Parameters.Init | lib/tzispa/rig/parameters.rb:10-15 | the empty hash with the two separators |
| Params.Parameters.New | lib/tzispa/rig/parameters.rb:10-15 | `Parameters.new` is empty without params, else holds setData's hash or raises its error |
| Params.Parameters.Set | lib/tzispa/rig/parameters.rb:17-19 | set stores under the key and keeps the keys distinct |
| Params.Parameters.Get | lib/tzispa/rig/parameters.rb:21-27 | a key with a value is a key of the hash |
| Params.Parameters.ToS | lib/tzispa/rig/parameters.rb:33-35 | an empty hash prints as the empty string |
| Params.Parameters.Merge | lib/tzispa/rig/parameters.rb:43-52 | merge's loop leaves the hash and error setData gives, keeping the keys distinct |
| Params.StoreGet | lib/tzispa/rig/parameters.rb:17-23 | after a store, get of the key gives the stored value |
| Params.StoreOther | lib/tzispa/rig/parameters.rb:17-23 | a store leaves every other key's presence and value as they were |
| Params.LoadOther | lib/tzispa/rig/parameters.rb:49-52 | a key no piece names keeps its value through setData |
| Params.LoadLastWins | lib/tzispa/rig/parameters.rb:49-52 | after a setData that raises nothing, a key holds the value of the last piece that names it |
| Params.LoadAllSucceed | lib/tzispa/rig/parameters.rb:49-52 | a setData that raises nothing read every piece into a key |
| Params.RoundTrip | lib/tzispa/rig/parameters.rb:33-52 | reading `to_s` back with the same separators gives the same hash, for plain entries |
| Params.ReadWithSemicolon | lib/tzispa/rig/parameters.rb:10-15 | `k1=value1;k2=value2` read with `;` gives the two entries in order |
| Params.MergeThenToS | lib/tzispa/rig/parameters.rb:33-45 | after a merge, `to_s` shows the two raw strings joined by the separator |
| Params.SetThenToS | lib/tzispa/rig/parameters.rb:17-35 | a new key set afterwards shows last in `to_s` |
| Params.ReadWithWrongSeparator | lib/tzispa/rig/parameters.rb:10-15 | with the default `,` a `;`-separated string is one piece, so `k1` takes `value1;k2` |
| Binders.EmptyRecord | lib/tzispa/rig/binder.rb:40-44 | a new struct has every member and each is nil |
| Binders.StrictFailsAtFirstUnknown | lib/tzispa/rig/binder.rb:103-110 | strict attach raises UnknownTag for the first key that is not a tag, after assigning the keys before it |
| Binders.StrictSucceeds | lib/tzispa/rig/binder.rb:103-110 | with every key a tag, strict attach does not raise, keeps the members, and leaves unnamed members as they were |
| Binders.StrictLastWins | lib/tzispa/rig/binder.rb:105-107 | the last parameter for a key wins |
| Binders.StrictAssign | lib/tzispa/rig/binder.rb:103-110 | `attach(**params)`: each parameter assigned in order, UnknownTag at the first key that is not a member (StrictFailsAtFirstUnknown, StrictSucceeds, StrictLastWins) |
| Binders.LoopBinderFor | lib/tzispa/rig/binder.rb:66-85 | a loop binder is made iff exactly one loop has the id: none is UnknownTag, several is DuplicatedLoop; its struct has the body's tags |
| Binders.LoopBinderForAsWritten | lib/tzispa/rig/binder.rb:79-85 | as written, both checks fail with NoMethodError for `id` |
| Binders.LoopBinderErrors | lib/tzispa/rig/binder.rb:66-85 | both versions accept the same ids with the same binder; as written the two errors read NoMethodError |
| Binders.LoopItem | lib/tzispa/rig/binder.rb:141-148 | a loop item fails only with params, and then with UnknownTag |
| Binders.LoopItemAsWritten | lib/tzispa/rig/binder.rb:144 | as written, an unknown key raises NoMethodError for `UnknownTag` |
| Binders.LoopItemErrors | lib/tzispa/rig/binder.rb:141-148 | both versions build the same items, and the written one turns UnknownTag into NoMethodError |
| Binders.LoopItemFresh | lib/tzispa/rig/binder.rb:151-157 | a loop item has exactly its binder's members, nil where no param names them |
| Binders.MakeLoopItem | lib/tzispa/rig/binder.rb:141-148 | the loop over params builds LoopItem's result |
| Binders.ItemsOf | lib/tzispa/rig/template_binder.rb:70-72 | every array element becomes one loop item record |
| Binders.BindLoopItems | lib/tzispa/rig/template_binder.rb:70-72 | bind_loopitems gives a loop binder with one item per element, or the loop binder's error |
| Binders.Convert | lib/tzispa/rig/template_binder.rb:49-56 | values that are not Enumerable or Proc are stored as they are |
| Binders.Known | lib/tzispa/rig/template_binder.rb:48 | exactly the params whose keys are tags, in their order |
| Binders.KnownAppend | lib/tzispa/rig/template_binder.rb:48 | filtering keeps the order of the params: the known params of two runs are those of the first, then of the second |
| Binders.LenientIsStrictOnKnown | lib/tzispa/rig/template_binder.rb:45-59 | for plain values, lenient attach is strict attach on the keys that are tags, and never raises |
| Binders.LenientSkipsUnknown | lib/tzispa/rig/template_binder.rb:48 | keys that are not tags change nothing |
| Binders.LenientAssign | lib/tzispa/rig/template_binder.rb:47-59 | the lenient `attach`: unknown keys skipped, known ones converted and assigned in order (LenientIsStrictOnKnown, LenientSkipsUnknown) |
| Binders.Scalars | lib/tzispa/rig/template_binder.rb:64 | attach_json's first pass keeps exactly the entries that are neither Array nor Hash |
| Binders.ArrayLoops | lib/tzispa/rig/template_binder.rb:65-67 | every value attach_json's second pass binds is a loop binder |
| Binders.ArrayLoopsKeys | lib/tzispa/rig/template_binder.rb:65-67 | attach_json's second pass succeeds iff every Array entry binds as loop items, and then binds exactly the Array keys, in order |
| Binders.JsonAttach | lib/tzispa/rig/template_binder.rb:62-68 | `attach_json`: the scalar entries assigned first, then the Array entries as loop binders, the first failure stopping it |
| Binders.For | lib/tzispa/rig/template_binder.rb:74-84 | a non-bindable template gets the generic binder; a bindable one its class, which must be a TemplateBinder, or nil without one |
| Binders.ForAsWritten | lib/tzispa/rig/binder.rb:116 | as written, a class that is not a TemplateBinder raises NoMethodError for `IsnotTemplateBinder` |
| Binders.ForErrors | lib/tzispa/rig/template_binder.rb:74-84 | both versions agree on success, and fail only for a bindable template whose class is not a TemplateBinder |
| Binders.Bound | lib/tzispa/rig/template_binder.rb:35-39 | `bound` runs the before hooks first and the after hooks last, with `bind!` between iff it is defined |
| Binders.TemplateBinder.constructor | lib/tzispa/rig/binder.rb:37-45 | the struct's members are the parser's attribute tags, without repetitions |
| Binders.TemplateBinder.Current | lib/tzispa/rig/template_binder.rb:41-43 | the struct has exactly the members |
| Binders.TemplateBinder.AsValue | lib/tzispa/rig/template_binder.rb:41-43 | the binder renders as its struct |
| Binders.TemplateBinder.Data | lib/tzispa/rig/template_binder.rb:41-43 | `data` is made once and then returned unchanged |
| Binders.TemplateBinder.AttachStrict | lib/tzispa/rig/binder.rb:103-110 | the struct after the loop is StrictAssign's, and so is the error |
| Binders.TemplateBinder.AssignLenient | lib/tzispa/rig/template_binder.rb:47-59 | the struct after the loop is LenientAssign's, and so is the error |
| Binders.TemplateBinder.AttachJson | lib/tzispa/rig/template_binder.rb:62-68 | attach_json gives JsonAttach's struct: scalars first, then Array loops |
| Binders.TemplateBinder.Attach | lib/tzispa/rig/template_binder.rb:45-60 | the JSON is attached first and stops the call on failure; then the keyword params |
| Binders.Outcome | lib/tzispa/rig/template_binder.rb:45-60 | a fold's result succeeds iff it stopped on no error |
| Templates.ConcatAppend | lib/tzispa/rig/template.rb:42-44 | reading two runs of lines is reading the first, then the second |
| Templates.Stale | lib/tzispa/rig/template.rb:28-30 | a missing file raises ENOENT; otherwise stale iff the recorded mtime differs from the file's |
| Templates.FreshAfterLoad | lib/tzispa/rig/template.rb:28-41 | right after a load the file is not stale |
| Templates.StaleAfterWrite | lib/tzispa/rig/template.rb:28-41 | writing the file with a new mtime makes the loaded copy stale |
| Templates.ReloadAfterAppend | lib/tzispa/rig/template.rb:28-50 | loading a file, appending its lines to it on disk and loading again reads the first text twice, with the new mtime, and leaves the file fresh |
| Templates.RigFile.constructor | lib/tzispa/rig/template.rb:19-22 | a new File is not loaded |
| Templates.RigFile.Clone | lib/tzispa/rig/template.rb:15-22 | `dup` copies the file's path, loaded flag, content and mtime |
| Templates.RigFile.IsLoaded | lib/tzispa/rig/template.rb:24-26 | a loaded file has content and a recorded mtime |
| Templates.RigFile.Exists | lib/tzispa/rig/template.rb:32-34 | `exist?` iff the path is on disk |
| Templates.RigFile.ModifiedAsWritten | lib/tzispa/rig/template.rb:28-30 | as written, `modified?` always raises NoMethodError for `mtime` |
| Templates.RigFile.Modified | lib/tzispa/rig/template.rb:28-30 | `modified?` raises iff the file is gone, else holds iff the recorded mtime differs |
| Templates.RigFile.Load | lib/tzispa/rig/template.rb:36-51 | a missing file raises NotFound and changes nothing; otherwise the content is the file's lines joined, the mtime recorded and the file loaded |
| Templates.KindName | lib/tzispa/rig/template.rb:65 | every kind is one of layout, block, static |
| Templates.KindOf | lib/tzispa/rig/template.rb:153-156 | `type=` accepts exactly the three basic types and raises ArgumentError otherwise |
| Templates.KindRoundTrip | lib/tzispa/rig/template.rb:153-156 | a kind's name is accepted as that kind |
| Templates.DowncaseAll | lib/tzispa/rig/template.rb:73 | every part is downcased |
| Templates.DowncaseConcat | lib/tzispa/rig/template.rb:73 | downcasing distributes over concatenation |
| Templates.DowncaseJoin | lib/tzispa/rig/template.rb:73 | downcasing a dotted name downcases each part and keeps the dots |
| Templates.NamePartsOfJoin | lib/tzispa/rig/template.rb:73-75 | the subdomain is the first dotted part when there are several, and the name the last, both downcased |
| Templates.KindsHaveTheirOwnFiles | lib/tzispa/rig/template.rb:103-105 | templates of two kinds in one domain never share a file |
| Templates.PathOf | lib/tzispa/rig/template.rb:103-105 | `path`: the domain's path, `/rig/`, the kind's name and the subdomain when there is one (KindsHaveTheirOwnFiles, SubdomainFilename) |
| Templates.SubdomainFilename | lib/tzispa/rig/template.rb:87 | a layout `product.list` in `/app` lives at `/app/rig/layout/product/list.rig.htm` |
| Templates.Identify | lib/tzispa/rig/template.rb:72-88 | params errors come first, then the type check; the format is the argument's, else the parent's, else htm; no domain means no path |
| Templates.Template.Make | lib/tzispa/rig/template.rb:72-88 | a new template has its identity, a fresh unloaded file named after it, the params, and no parser |
| Templates.Template.Copy | lib/tzispa/rig/template.rb:62-69 | `dup` copies identity, file state, parser and params object |
| Templates.Template.New | lib/tzispa/rig/template.rb:72-88 | Template.new succeeds iff Identify does, with that identity, fresh objects, the params read with `,` and `=`, and no parser |
| Templates.Template.SetParams | lib/tzispa/rig/template.rb:126-128 | `params=` gives a fresh Parameters object read from the string, or fails and keeps the old one |
| Templates.Template.Parse | lib/tzispa/rig/template.rb:90-94 | parse! without content raises at `gsub!`; with content the new parser holds ParseText of it |
| Templates.Template.LoadParse | lib/tzispa/rig/template.rb:36-51 | `load!.parse!` raises NotFound for a missing file; otherwise the template is loaded from disk and freshly parsed |
| Templates.Template.Render | lib/tzispa/rig/template.rb:96-101 | render parses only without a parser, then renders the parse |
| Templates.Template.Build | lib/tzispa/rig/template.rb:72-94 | new, load! and parse! succeed iff the identity is valid and its file is on disk, giving a fresh loaded template; otherwise the identity's error or NotFound |
| Templates.BuildError | lib/tzispa/rig/template.rb:70-86 | a build raises nothing iff the identity is valid and its file is on disk; else the identity's error, or NotFound of the file |
| Templates.LoadedFresh | lib/tzispa/rig/template.rb:28-41 | a template loaded from the file system as it now is is not stale |
| Templates.Template.Dup | lib/tzispa/rig/factory.rb:45-47 | the copy has the master's state, and the request's params on the copy only |
| Templates.Engine.constructor | lib/tzispa/rig/template.rb:184-188 | the pool starts empty |
| Templates.Engine.RigTemplate | lib/tzispa/rig/template.rb:202-212 | the pool is never written; an unpooled request succeeds iff it builds, with the build's error otherwise and a fresh loaded template with the request's identity on success; a pooled template that is loaded and not stale is handed back untouched; a staleness error is raised; an unloaded or stale one is reloaded in place, or NotFound; every success is not stale |
| Factories.Decide | lib/tzispa/rig/factory.rb:50-56 | a master is reused iff it is there, not stale and valid; its staleness error is raised |
| Factories.MasterIdent | lib/tzispa/rig/factory.rb:58-63 | a master is identified iff its type is known, with the request's domain, and the content type as format |
| Factories.MasterIdentAsWritten | lib/tzispa/rig/factory.rb:59-62 | as written, Template.new rejects the `content_type:` keyword |
| Factories.ContentTypeKeyword | lib/tzispa/rig/factory.rb:59-62 | for every kind, the written build fails where the meant one succeeds |
| Factories.SecondRequestReuses | lib/tzispa/rig/factory.rb:36-56 | two identical requests on an unchanged file system, the master answering `valid?`: when the first succeeds the second succeeds iff its params parse, and hands out a copy of the same master (same parser, same identity) |
| Factories.Factory.constructor | lib/tzispa/rig/factory.rb:14-17 | the cache starts empty |
| Factories.Factory.Empty | lib/tzispa/rig/factory.rb:20-22 | `empty` is a new TemplateBase |
| Factories.Factory.SetTemplate | lib/tzispa/rig/factory.rb:58-63 | the build succeeds iff the master's identity is valid and its file is on disk, else with that error; a built master is stored under the key; a failed build stores nothing |
| Factories.Factory.GetTemplate | lib/tzispa/rig/factory.rb:50-56 | the cache follows Decide: reuse keeps it, failure raises; a rebuild succeeds iff the master builds, with its error otherwise, and stores a fresh loaded master |
| Factories.Factory.RigTemplate | lib/tzispa/rig/factory.rb:36-48 | a reused master gives success iff the params parse; a rebuilt one iff it builds and the params parse, with the build's error first; the result is a fresh `dup` of the master under the key, the request's params on the copy only; after a success the same request on the same files is a Reuse |
| Factories.Factory.Layout | lib/tzispa/rig/factory.rb:24-26 | a layout request keeps the cache valid and gives a fresh ready copy |
| Factories.Factory.Block | lib/tzispa/rig/factory.rb:28-30 | a block request keeps the cache valid and gives a fresh ready copy |
| Factories.Factory.Static | lib/tzispa/rig/factory.rb:32-34 | a static request keeps the cache valid and gives a fresh ready copy |
| Engines.EngineKey | lib/tzispa/rig/engine.rb:49 | the key is the type, `__`, then the name |
| Engines.UncachedAsWritten | lib/tzispa/rig/engine.rb:42 | as written, `format: format` raises ArgumentError before a template is made |
| Engines.UncachedFormat | lib/tzispa/rig/engine.rb:42 | every request fails as written where, with its format, it gets an identity carrying that format |
| Engines.Engine.constructor | lib/tzispa/rig/engine.rb:14-18 | the engine starts with an empty cache |
| Engines.Engine.GetSet | lib/tzispa/rig/engine.rb:50-52 | getset returns the cached template; on a miss it succeeds iff the template builds, with its error otherwise, and stores and returns a fresh loaded one |
| Engines.Engine.Refresh | lib/tzispa/rig/engine.rb:53-57 | a changed template is loaded and parsed again in place; an unchanged one is untouched; a staleness error is raised; after a success the cached template is not stale |
| Engines.Engine.RigTemplate | lib/tzispa/rig/engine.rb:32-44 | without a cache, success iff the (intended) identity builds, with its error otherwise, giving a fresh loaded template with the request's identity and params; with one, CacheOutcome's success conditions and cache update, and a fresh copy of the cached master that is not stale, with the request's params |
| Engines.Engine.CacheOutcome | lib/tzispa/rig/engine.rb:48-61 | a hit leaves the cache as it was and fails iff the master's staleness check or the params fail; a miss fails iff the build or the params fail, and a build that raised nothing adds only its own key |
| Engines.Engine.CacheTemplate | lib/tzispa/rig/engine.rb:48-61 | getset, then reload if changed, then a `dup` with the params on the copy only; success and the cache follow CacheOutcome; a miss stores a fresh loaded master; every success is not stale |
| Engines.Engine.Layout | lib/tzispa/rig/engine.rb:20-22 | a layout request keeps the engine valid and gives a fresh ready template |
| Engines.Engine.Block | lib/tzispa/rig/engine.rb:24-26 | a block request keeps the engine valid and gives a fresh ready template |
| Engines.Engine.Static | lib/tzispa/rig/engine.rb:28-30 | a static request keeps the engine valid and gives a fresh ready template |
| Values.ToS | lib/tzispa/rig/parsernext.rb:67 | `to_s` of nil is empty and of a string is itself; other objects are outside the model |
| Values.DataOf | lib/tzispa/rig/parsernext.rb:66 | `binder.data` exists for structs and loop binders only |
| Values.Lookup | lib/tzispa/rig/parsernext.rb:193 | `respond_to?`/`send` give the member's value, nil when it is absent |
| Seqs.UniqOrder | lib/tzispa/rig/parsernext.rb:384 | `uniq` keeps the first occurrences in order |
| Seqs.UniqDistinct | lib/tzispa/rig/parsernext.rb:384 | a list without repetitions is its own `uniq` |
| Strings.ReplaceIsJoinOfFields | lib/tzispa/rig/parsernext.rb:374 | `gsub!` of a literal is splitting on it and joining with the replacement |
| Strings.ReplaceAbsent | lib/tzispa/rig/parsernext.rb:374 | replacing a string that does not occur changes nothing |
| Strings.Replace | lib/tzispa/rig/parsernext.rb:374 | `gsub!` of a literal: every occurrence, left to right and not overlapping, replaced (ReplaceIsJoinOfFields, ReplaceAbsent) |
| Strings.FieldsOfJoin | lib/tzispa/rig/parameters.rb:50 | splitting a join of separator-free parts on the separator gives the parts back |
| Strings.Split | lib/tzispa/rig/parameters.rb:50 | `String#split` on a literal: each character for an empty separator, else the fields between separators with trailing empty fields dropped (FieldsOfJoin) |
| Strings.HexInjective | lib/tzispa/rig/parsernext.rb:51 | `"%x"` is injective on object ids |

## Left out

- Values.HasContext: only the binders (records and loop binders) answer `context`, so an arbitrary object rendered as a binder is taken to answer neither `data` nor `context`.
- Nesting of bindings: Render.BindValue can name any token of the same parser, itself included, so rendering takes a `fuel` bound. Ruby has none, and a cycle overflows its stack. With fuel spent, the model fails with OutOfFuel.
- Nested templates are not fetched at parse time. An inclusion token records what it asks for (the empty template, itself, or a block or static of a name). Rendering hands that request to the context's `embed` function. This is because the factory and engine are process-wide singletons that the parser calls by class name.
- The url and api builders of the context (`layout_path`, `app_layout_canonical_url`, the api senders) and the content escape method belong to the web application. They are functions in `Render.Context`.
- `Parameters.new(b_params).to_h` inside url rendering is modelled as handing the bound parameter string to the context's link builder.
- `gsub` replacement strings are used literally. Backslash escapes in a rendered value are not interpreted.
- `split` with a single-space separator (Ruby's awk mode) is modelled as an ordinary split.
- Symbols and strings are both `string`. `to_sym` on ids and tags is the identity.
- Strings.Downcase maps only `A`–`Z` to lower case. Ruby's `String#downcase` also lowers non-ASCII letters (`É` becomes `é`), which the model does not, so names made only of ASCII letters are modelled exactly.
- Binders.TemplateBinder.AttachJson: `attach(hash)` with a Hash for the keyword `**params` relies on Ruby 2's implicit conversion of a trailing Hash to keywords; under Ruby 3 the call raises ArgumentError. The model follows Ruby 2.
- Values.DataOf: a LoopBinder's `data` is an Enumerator, which answers `count`, `first`, `size` and the other Enumerable methods. The model gives it no attributes (an empty map), so a tag such as `count` read through a loop binder renders as nil where Ruby would send it.
- Values.ToS: `to_s` is known for nil, booleans, integers and strings only. Other values render as an Unmodelled failure.
- Render.LoopItems: iterating a Struct or another object's `data` is outside the model and gives an Unmodelled failure.
- JSON parsing in attach_json is left out. The JSON is given as its parsed entries.
- `bind!` (it `eval`s the caller's binding), the before and after hooks, `method_missing` delegation and `attr_cache` call into application code. The model only fixes the steps' order (Binders.Bound).
- The binder classes of a bindable template (`binder_require`, `binder_namespace`, `binder_class_name`, `binder_class`) are found by file loading and reflection. `TemplateBinder.for` takes the class found as a parameter.
- `create` and `create_binder` write files to disk and are left out.
- `ReadError` is raised only when the file system reports ENOENT in the middle of `load!`. A file system as a value has no such race.
- Mutexes and thread-safety are left out (rig_template's `synchronize`, the threadsafe cache).
- The LRU eviction of both caches and `cache_size` are left out. A cache is a map that keeps everything.
- The `engine:` back-reference of a template is left out. Nothing in the core reads it.
- Template#render looks up its binder class and `bind!`s it. The model renders against a binder value given by the caller.
- Templates.Template.Parse passes the content and the caller's family and bindable flag to the parser. The source passes the template object itself to ParserNext.new, whose first parameter is the text. As written that call also raises: with no `domain:` and no `parent:`, ParserNext#initialize sends `domain` to nil (lib/tzispa/rig/parsernext.rb:348). The model follows the evident intent.
- Templates.Template.LoadParse: its contract does not restate Parse's result (the parser's snapshot being ParseText of the content), so that callers stay cheap to verify. It states the file state, a fresh parser and its environment.
- ParserNext never sets `@template`, so the self-inclusion guard of `obtain_block` never applies in a parse driven by a template. The model's templates parse with no current template. TokenTree.ObtainBlock states the guard for a parse that has one.
- `Template#bindable?`, `Template#valid?` and `TemplateBase` are not defined in the repository. `bindable` and `valid` are parameters, and TemplateBase is an empty class.
- `Template#is_block?`, `is_layout?` and `is_static?` are comparisons of the template's kind, which the model exposes as `kind`.
- The `layout`, `block` and `static` of template.rb's Engine call rig_template with a fixed kind, as those of engine.rb do. Only RigTemplate is modelled there.
- A name that splits into no parts leaves the Ruby name nil, which interpolates as the empty string. The model uses the empty string.
- Params.Parameters.Get: its contract says only that a key with a value is present. The value is ValueOf, whose properties are lemmas (StoreGet, StoreOther, LoadLastWins).
- Params.Parameters.ToS: its contract gives only the empty case. The rest is the RoundTrip, MergeThenToS and SetThenToS lemmas.
- The test's `params['k5'] = ...` has no `[]=` in Parameters. The model has `set`.
- Factories.Factory.Layout, Block and Static: their contracts state only validity and a fresh ready copy. The full contract is Factories.Factory.RigTemplate's.
- Engines.Engine.Layout, Block and Static: their contracts state only validity and a fresh ready template. The full contract is Engines.Engine.RigTemplate's.
- The engine test calls `Engine.layout` as a class method with a factory's signature, which engine.rb does not define.
- `ParsedBlock#parse!` asks `Engine.block`, a class method engine.rb does not define. The model records a block request there as for the token classes.

## Findings

| source | as written | input that shows it | evidently intended | confidence | as-written member | corrected member |
|---|---|---|---|---|---|---|
| lib/tzispa/rig/parsernext.rb:432 | `RIG_TEMPLATES.values` on a Regexp | any text, on any parse! | the inclusion stage uses RIG_TEMPLATES itself, whose group numbers `instance` reads | not executed | Parser.ParserNext.ParseAsWritten | Parser.ParserNext.Parse |
| lib/tzispa/rig/binder.rb:79-85 | `loop_parser.id` on the Array of loops | `loop_binder(:missing)`, or an id with two loops | raise UnknownTag or DuplicatedLoop naming the id | not executed | Binders.LoopBinderForAsWritten | Binders.LoopBinderFor |
| lib/tzispa/rig/binder.rb:144 | `raise UnknownTag(...)` calls a method | `loop_item(nope: 1)` with no tag `nope` | `raise UnknownTag.new(...)` | not executed | Binders.LoopItemAsWritten | Binders.LoopItem |
| lib/tzispa/rig/binder.rb:116 | `raise IsnotTemplateBinder(...)` calls a method | a bindable template whose binder class is not a TemplateBinder | `raise IsnotTemplateBinder.new(...)` | not executed | Binders.ForAsWritten | Binders.For |
| lib/tzispa/rig/engine.rb:42 | `format: format` calls Kernel#format with no arguments | any request with the cache disabled | `format: tpl_format` | not executed | Engines.UncachedAsWritten | Engines.Engine.RigTemplate |
| lib/tzispa/rig/template.rb:29 | `File.mtime` resolves to Tzispa::Rig::File | `modified?` on any loaded template | `::File.mtime(@file)` | not executed | Templates.RigFile.ModifiedAsWritten | Templates.RigFile.Modified |
| lib/tzispa/rig/parsernext.rb:124 | `Parameters.new(b_params).tp_h` | `<purl#admin:home/>` | `.to_h`, as in the three other branches | not executed | Render.UrlLinkAsWritten | Render.UrlLink |
| lib/tzispa/rig/factory.rb:59-62 | `Template.new(content_type: ...)`, a keyword Template does not take | any first request for a template | pass the content type as `format:` | not executed | Factories.MasterIdentAsWritten | Factories.MasterIdent |
