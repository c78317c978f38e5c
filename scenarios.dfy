/**
 * The library's own test scenarios, worked out on the model: the
 * `query:"p"` rename and the naming contexts of inline, anonymous and
 * named embedded structs.
 */
module Scenarios {
  import opened Wrappers
  import opened Reflection
  import opened Types
  import opened Schema

  const Str := Basic("string")
  const U32 := Basic("uint32")

  /** A parser configured as in the tests: tag key `schema`, the five HTTP sources, the identity name converter. */
  function TestConfig(): Config {
    Config("schema", ["path", "query", "form", "header", "body"], (name: string) => name,
           map[Str := StringCodec, U32 := IntCodec(Uint32)])
  }

  /** One round of the walk: the head node's fields turn the queue and schema into the next ones. */
  lemma WalkStep(cfg: Config, q: seq<Node>, bs: Schema, q1: seq<Node>, bs1: Schema)
    requires AllStruct(q) && q != [] && AllStruct(q1) && q[0].ty.fields[0..] == q[0].ty.fields
    requires StepFields(cfg, q[0], 0, q[1..], bs) == Ok((q1, bs1))
    ensures Walk(cfg, q, bs) == Walk(cfg, q1, bs1)
  {
  }

  const PageField := Field("Page", U32, map["schema" := "query", "query" := "p"], false)

  lemma PageSources()
    ensures ResolveSources(PageField.tag, "Page", ["query"], []) == Ok([FieldSource("query", "p")])
  {
    assert TagGet(PageField.tag, "query") == "p";
    var r := ResolveSources(PageField.tag, "Page", ["query"], []);
    assert r.Ok? && |r.value| == 1 && r.value[0] == FieldSource("query", "p");
    assert r.value == [FieldSource("query", "p")];
  }

  /** The page field has the sources ["query"], no flag, and the uint32 codec. */
  lemma PageFacts(cfg: Config)
    requires cfg == TestConfig()
    ensures Options(cfg, PageField) == FieldOptions(["query"], false)
    ensures Lookup(cfg.reg, U32) == Some((false, IntCodec(Uint32)))
    ensures SourcesValid(cfg.validSources, ["query"])
  {
    assert TagGet(PageField.tag, "schema") == "query";
    SingleSourceOptions("query");
  }

  lemma PageStep(cfg: Config, n: Node)
    requires cfg == TestConfig() && n.ty.Struct? && n.ty.fields == [PageField] && n.path == [] && n.context == ""
    ensures StepField(cfg, n, 0, [], []) == Ok(([], [Binding([FieldSource("query", "p")], PageField, [0], false, IntCodec(Uint32))]))
  {
    PageFacts(cfg);
    PageSources();
    assert cfg.conv("Page") == "Page";
    assert NewContext("", "Page") == "Page";
    assert NewIndex([], [0]) == [0];
    var b := Binding([FieldSource("query", "p")], PageField, [0], false, IntCodec(Uint32));
    assert [] + [b] == [b];
  }

  /** A struct holding only the renamed page field derives the single binding (query, p). */
  lemma PageWalk(cfg: Config, t: Ty)
    requires cfg == TestConfig() && t.Struct? && t.fields == [PageField]
    ensures DeriveSchema(cfg, t) == Ok([Binding([FieldSource("query", "p")], PageField, [0], false, IntCodec(Uint32))])
  {
    var b := Binding([FieldSource("query", "p")], PageField, [0], false, IntCodec(Uint32));
    var n := Node(t, [], "");
    PageStep(cfg, n);
    assert StepFields(cfg, n, 1, [], [b]) == Ok(([], [b]));
    assert StepFields(cfg, n, 0, [], []) == Ok(([], [b]));
    assert [n][1..] == [];
    assert Walk(cfg, [], [b]) == Ok([b]);
  }

  /** The embedded structs of the decoder test, each with one string field read from `header`. */
  function HeaderField(name: string): Field {
    Field(name, Str, map["schema" := "header"], false)
  }

  const EmbedInline := Struct("EmbedInline", [HeaderField("Inline")])
  const Embed := Struct("Embed", [HeaderField("Embed")])

  /** `EmbedInline EmbedInline schema:";inline"` and `Embed Embed schema:"embed"`. */
  const FInline := Field("EmbedInline", EmbedInline, map["schema" := ";inline"], false)
  const FEmbed := Field("Embed", Embed, map["schema" := "embed"], false)

  /** The `;inline` tag sets the inline flag; the `embed` tag names a source and no flag. */
  lemma InlineFlags(cfg: Config)
    requires cfg == TestConfig()
    ensures Options(cfg, FInline).inline && !Options(cfg, FEmbed).inline
  {
    InlineFlag(cfg);
    EmbedNotInline(cfg);
  }

  lemma InlineFlag(cfg: Config)
    requires cfg == TestConfig()
    ensures Options(cfg, FInline).inline
  {
    assert TagGet(FInline.tag, "schema") == ";inline";
    InlineOptions();
  }

  lemma EmbedNotInline(cfg: Config)
    requires cfg == TestConfig()
    ensures !Options(cfg, FEmbed).inline
  {
    assert TagGet(FEmbed.tag, "schema") == "embed";
    NoFlagsNotInline("embed");
  }

  /** A node holding one header field binds it under its context-qualified name. */
  lemma HeaderLeaf(cfg: Config, n: Node, q: seq<Node>, bs: Schema, name: string)
    requires cfg == TestConfig() && AllStruct(q) && name != ""
    requires n.ty.Struct? && n.ty.fields == [HeaderField(name)]
    requires !SourceExists(bs, FieldSource("header", NewContext(n.context, name)))
    ensures StepFields(cfg, n, 0, q, bs) ==
      Ok((q, bs + [Binding([FieldSource("header", NewContext(n.context, name))], HeaderField(name), n.path + [0], false, StringCodec)]))
  {
    var f := HeaderField(name);
    var dflt := NewContext(n.context, name);
    HeaderFacts(cfg, name);
    HeaderResolve(f, dflt, bs);
    var b := Binding([FieldSource("header", dflt)], f, n.path + [0], false, StringCodec);
    assert StepField(cfg, n, 0, q, bs) == Ok((q, bs + [b]));
    assert StepFields(cfg, n, 1, q, bs + [b]) == Ok((q, bs + [b]));
  }

  /** A header field has the sources ["header"], no flag, and the string codec. */
  lemma HeaderFacts(cfg: Config, name: string)
    requires cfg == TestConfig()
    ensures Options(cfg, HeaderField(name)) == FieldOptions(["header"], false)
    ensures Lookup(cfg.reg, HeaderField(name).ty) == Some((false, StringCodec))
    ensures SourcesValid(cfg.validSources, ["header"])
  {
    assert TagGet(HeaderField(name).tag, "schema") == "header";
    SingleSourceOptions("header");
  }

  /** Without a `header` tag the one source takes the default name. */
  lemma HeaderResolve(f: Field, dflt: string, bs: Schema)
    requires f.tag == map["schema" := "header"]
    requires !SourceExists(bs, FieldSource("header", dflt))
    ensures ResolveSources(f.tag, dflt, ["header"], bs) == Ok([FieldSource("header", dflt)])
  {
    assert TagGet(f.tag, "header") == "";
    var r := ResolveSources(f.tag, dflt, ["header"], bs);
    assert r.Ok? && |r.value| == 1 && r.value[0] == FieldSource("header", dflt);
    assert r.value == [FieldSource("header", dflt)];
  }

  /** A round of the walk on a header-field node appends its binding, under `key` at `path`. */
  lemma LeafRound(cfg: Config, n: Node, rest: seq<Node>, bs: Schema, name: string, key: string, path: seq<nat>)
    requires cfg == TestConfig() && AllStruct(rest) && name != ""
    requires n.ty.Struct? && n.ty.fields == [HeaderField(name)]
    requires key == NewContext(n.context, name) && path == n.path + [0]
    requires !SourceExists(bs, FieldSource("header", key))
    ensures Walk(cfg, [n] + rest, bs) == Walk(cfg, rest, bs + [Binding([FieldSource("header", key)], HeaderField(name), path, false, StringCodec)])
  {
    HeaderLeaf(cfg, n, rest, bs, name);
    assert ([n] + rest)[1..] == rest;
    assert n.ty.fields[0..] == n.ty.fields;
    WalkStep(cfg, [n] + rest, bs, rest, bs + [Binding([FieldSource("header", key)], HeaderField(name), path, false, StringCodec)]);
  }

  /** A field of an unregistered struct type is queued with the context its options give. */
  lemma StructChild(cfg: Config, n: Node, i: nat, q: seq<Node>, bs: Schema, ctx: string, q1: seq<Node>)
    requires cfg == TestConfig() && AllStruct(q) && n.ty.Struct? && i < |n.ty.fields|
    requires n.ty.fields[i].ty.Struct? && n.ty.fields[i].name != ""
    requires var f := n.ty.fields[i];
      ctx == if f.anonymous || Options(cfg, f).inline then n.context else NewContext(n.context, f.name)
    requires q1 == q + [Node(n.ty.fields[i].ty, n.path + [i], ctx)]
    ensures AllStruct(q1) && StepFields(cfg, n, i, q, bs) == StepFields(cfg, n, i + 1, q1, bs)
  {
    assert Lookup(cfg.reg, n.ty.fields[i].ty) == None;
    assert StepField(cfg, n, i, q, bs) == Ok((q1, bs));
  }

  /** The root node of the outer test struct: an inline, an anonymous and a named embedded struct field. */
  ghost predicate OuterShape(cfg: Config, root: Node, f0: Field, f1: Field, f2: Field) {
    cfg == TestConfig() && root.ty.Struct? && root.path == [] && root.context == "" &&
    root.ty.fields == [f0, f1, f2] &&
    f0.name == "EmbedInline" && f0.ty.Struct? && !f0.anonymous && Options(cfg, f0).inline &&
    f1.name == "EmbedAnonymous" && f1.ty.Struct? && f1.anonymous &&
    f2.name == "Embed" && f2.ty.Struct? && !f2.anonymous && !Options(cfg, f2).inline
  }

  /** The inline and the anonymous field are queued with the root's empty context. */
  lemma OuterHead(cfg: Config, root: Node, f0: Field, f1: Field, f2: Field)
    requires OuterShape(cfg, root, f0, f1, f2)
    ensures StepFields(cfg, root, 0, [], []) == StepFields(cfg, root, 2, [Node(f0.ty, [0], ""), Node(f1.ty, [1], "")], [])
  {
    var n0 := Node(f0.ty, [0], "");
    OuterFirst(cfg, root, f0, f1, f2);
    OuterSecond(cfg, root, f0, f1, f2, n0);
  }

  /** The inline field keeps the root's empty context. */
  lemma OuterFirst(cfg: Config, root: Node, f0: Field, f1: Field, f2: Field)
    requires OuterShape(cfg, root, f0, f1, f2)
    ensures StepFields(cfg, root, 0, [], []) == StepFields(cfg, root, 1, [Node(f0.ty, [0], "")], [])
  {
    var n0 := Node(f0.ty, [0], "");
    assert [] + [n0] == [n0] && [] + [0] == [0];
    StructChild(cfg, root, 0, [], [], "", [n0]);
  }

  /** The anonymous field keeps the root's empty context. */
  lemma OuterSecond(cfg: Config, root: Node, f0: Field, f1: Field, f2: Field, n0: Node)
    requires OuterShape(cfg, root, f0, f1, f2) && n0.ty.Struct?
    ensures StepFields(cfg, root, 1, [n0], []) == StepFields(cfg, root, 2, [n0, Node(f1.ty, [1], "")], [])
  {
    var n1 := Node(f1.ty, [1], "");
    assert [n0] + [n1] == [n0, n1] && [] + [1] == [1];
    StructChild(cfg, root, 1, [n0], [], "", [n0, n1]);
  }

  /** The root's three struct fields are queued, with contexts "", "" and "Embed". */
  lemma OuterQueue(cfg: Config, root: Node, f0: Field, f1: Field, f2: Field)
    requires OuterShape(cfg, root, f0, f1, f2)
    ensures StepFields(cfg, root, 0, [], []) == Ok(([Node(f0.ty, [0], ""), Node(f1.ty, [1], ""), Node(f2.ty, [2], "Embed")], []))
  {
    OuterHead(cfg, root, f0, f1, f2);
    OuterLast(cfg, root, f0, f1, f2, Node(f0.ty, [0], ""), Node(f1.ty, [1], ""));
  }

  /** The named embedded struct is queued last, with the context "Embed". */
  lemma OuterLast(cfg: Config, root: Node, f0: Field, f1: Field, f2: Field, n0: Node, n1: Node)
    requires OuterShape(cfg, root, f0, f1, f2) && n0.ty.Struct? && n1.ty.Struct?
    ensures StepFields(cfg, root, 2, [n0, n1], []) == Ok(([n0, n1, Node(f2.ty, [2], "Embed")], []))
  {
    var n2 := Node(f2.ty, [2], "Embed");
    assert [n0, n1] + [n2] == [n0, n1, n2] && [] + [2] == [2];
    StructChild(cfg, root, 2, [n0, n1], [], "Embed", [n0, n1, n2]);
    FieldsDone(cfg, root, [n0, n1, n2], []);
  }

  /** Past the last field, the field loop hands back the queue and the schema. */
  lemma FieldsDone(cfg: Config, n: Node, q: seq<Node>, bs: Schema)
    requires n.ty.Struct? && AllStruct(q)
    ensures StepFields(cfg, n, |n.ty.fields|, q, bs) == Ok((q, bs))
  {
  }

  /** The first round of the walk replaces the root by its three children. */
  lemma OuterFields(cfg: Config, root: Node, f0: Field, f1: Field, f2: Field)
    requires OuterShape(cfg, root, f0, f1, f2)
    ensures Walk(cfg, [root], []) == Walk(cfg, [Node(f0.ty, [0], ""), Node(f1.ty, [1], ""), Node(f2.ty, [2], "Embed")], [])
  {
    OuterQueue(cfg, root, f0, f1, f2);
    assert [root][1..] == [] && root.ty.fields[0..] == root.ty.fields;
    WalkStep(cfg, [root], [], [Node(f0.ty, [0], ""), Node(f1.ty, [1], ""), Node(f2.ty, [2], "Embed")], []);
  }

  lemma EmbedJoin()
    ensures NewContext("Embed", "Embed") == "Embed.Embed"
  {
    var j := "Embed" + "." + "Embed";
    assert |j| == 11;
    forall k | 0 <= k < 11 ensures j[k] == "Embed.Embed"[k] {
    }
  }

  /** The bindings the decoder test's embedded structs produce. */
  const B0 := Binding([FieldSource("header", "Inline")], HeaderField("Inline"), [0, 0], false, StringCodec)
  const B1 := Binding([FieldSource("header", "Anonymous")], HeaderField("Anonymous"), [1, 0], false, StringCodec)
  const B2 := Binding([FieldSource("header", "Embed.Embed")], HeaderField("Embed"), [2, 0], false, StringCodec)

  lemma FreshPairs()
    ensures !SourceExists([B0], FieldSource("header", "Anonymous"))
    ensures !SourceExists([B0, B1], FieldSource("header", "Embed.Embed"))
  {
    assert "Inline" != "Anonymous" by { assert |"Inline"| != |"Anonymous"|; }
    assert "Inline" != "Embed.Embed" by { assert |"Inline"| != |"Embed.Embed"|; }
    assert "Anonymous" != "Embed.Embed" by { assert |"Anonymous"| != |"Embed.Embed"|; }
  }

  /**
   * Embedded structs: an inline or anonymous one keeps the parent's
   * context, a named one adds its own, giving the names `Inline`,
   * `Anonymous` and `Embed.Embed` of the decoder test.
   */
  lemma EmbeddedWalk(cfg: Config, t: Ty, f0: Field, f1: Field, f2: Field)
    requires cfg == TestConfig() && t.Struct? && t.fields == [f0, f1, f2]
    requires f0.name == "EmbedInline" && f0.ty.Struct? && f0.ty.fields == [HeaderField("Inline")] && !f0.anonymous && Options(cfg, f0).inline
    requires f1.name == "EmbedAnonymous" && f1.ty.Struct? && f1.ty.fields == [HeaderField("Anonymous")] && f1.anonymous
    requires f2.name == "Embed" && f2.ty.Struct? && f2.ty.fields == [HeaderField("Embed")] && !f2.anonymous && !Options(cfg, f2).inline
    ensures DeriveSchema(cfg, t) == Ok([B0, B1, B2])
  {
    OuterFields(cfg, Node(t, [], ""), f0, f1, f2);
    EmbeddedRounds(cfg, Node(f0.ty, [0], ""), Node(f1.ty, [1], ""), Node(f2.ty, [2], "Embed"));
  }

  /** The three queued nodes bind their header fields in turn. */
  lemma EmbeddedRounds(cfg: Config, n0: Node, n1: Node, n2: Node)
    requires cfg == TestConfig()
    requires n0.ty.Struct? && n0.ty.fields == [HeaderField("Inline")] && n0.path == [0] && n0.context == ""
    requires n1.ty.Struct? && n1.ty.fields == [HeaderField("Anonymous")] && n1.path == [1] && n1.context == ""
    requires n2.ty.Struct? && n2.ty.fields == [HeaderField("Embed")] && n2.path == [2] && n2.context == "Embed"
    ensures Walk(cfg, [n0, n1, n2], []) == Ok([B0, B1, B2])
  {
    assert [0] + [0] == [0, 0] && [1] + [0] == [1, 0] && [2] + [0] == [2, 0];
    EmbedJoin();
    FreshPairs();
    assert [n0, n1, n2] == [n0] + [n1, n2] && [n1, n2] == [n1] + [n2] && [n2] == [n2] + [];
    assert [] + [B0] == [B0] && [B0] + [B1] == [B0, B1] && [B0, B1] + [B2] == [B0, B1, B2];
    LeafRound(cfg, n0, [n1, n2], [], "Inline", "Inline", [0, 0]);
    LeafRound(cfg, n1, [n2], [B0], "Anonymous", "Anonymous", [1, 0]);
    LeafRound(cfg, n2, [], [B0, B1], "Embed", "Embed.Embed", [2, 0]);
  }
}
