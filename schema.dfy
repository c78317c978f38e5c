/**
 * Schema derivation: the work-queue walk of the parser that turns a
 * struct type into the list of its bindings (one per codec-typed field
 * reached, with the (source, name) pairs it is read from and written to).
 * The functions here are the specification the Parser class is proved
 * against.
 */
module Schema {
  import opened Wrappers
  import opened Reflection
  import opened Types
  import Util

  /** The options tag grammar: `sources[;flags]`, sources `source[,source]*`, flags `[inline]`. */
  datatype FieldOptions = FieldOptions(sources: seq<string>, inline: bool)

  /** One place a binding is read from or written to. */
  datatype FieldSource = FieldSource(source: string, name: string)

  /**
   * A bound field: its sources in tag order, the declared field, the full
   * index path from the root struct, whether it binds as a slice, and its codec.
   */
  datatype Binding = Binding(sources: seq<FieldSource>, field: Field, path: seq<nat>, isSlice: bool, codec: Codec)

  type Schema = seq<Binding>

  /** What the walk reads from the parser: the options tag, the source whitelist, the converter, the registry. */
  datatype Config = Config(optionsTag: string, validSources: seq<string>, conv: string -> string, reg: map<Ty, Codec>)

  /** A queued struct: its type, index path and naming context. */
  datatype Node = Node(ty: Ty, path: seq<nat>, context: string)

  datatype ParseError =
    | NotAStructure(ty: Ty)
    | UnsupportedFieldType(field: string)
    | InvalidSource(field: string)
    | DuplicatedFieldName(src: FieldSource)

  /** parseFieldOptions: "" and "-" carry nothing; otherwise split once at the first ';'. */
  function ParseFieldOptions(val: string): FieldOptions {
    if val == "" || val == "-" then FieldOptions([], false)
    else
      var secs := Util.SplitFirst(val, ';');
      FieldOptions(Util.SplitTrimmed(secs[0], ','), |secs| > 1 && "inline" in Util.SplitTrimmed(secs[1], ';'))
  }

  /**
   * The options of a tag, described through the position of its first ';':
   * sources come from the text before it, and `inline` is set exactly when
   * one trimmed flag after it is "inline".
   */
  lemma ParseFieldOptionsSpec(val: string)
    ensures val == "" || val == "-" ==> ParseFieldOptions(val) == FieldOptions([], false)
    ensures val != "" && val != "-" ==>
      var k := Util.IndexOf(val, ';');
      ParseFieldOptions(val).sources == Util.SplitTrimmed(val[..k], ',') &&
      (ParseFieldOptions(val).inline <==> k < |val| && "inline" in Util.SplitTrimmed(val[k + 1..], ';'))
  {
    if val != "" && val != "-" {
      var secs := Util.SplitFirst(val, ';');
      var k := Util.IndexOf(val, ';');
      if |secs| == 1 {
        assert val[..k] == val;
      } else {
        var r0 := secs[0];
        assert val == r0 + [';'] + secs[1];
        assert val[|r0|] == ';';
        assert k == |r0|;
        assert val[..k] == r0;
        assert val[k + 1..] == secs[1];
      }
    }
  }

  /** A tag naming one source and no flags, such as `query`, gives that source alone. */
  lemma SingleSourceOptions(w: string)
    requires w != [] && w != "-" && Util.Trimmed(w) && ';' !in w && ',' !in w
    ensures ParseFieldOptions(w) == FieldOptions([w], false)
  {
    Util.SplitTrimmedWord(w, ',');
  }

  /** The tag `;inline` gives no sources and the inline flag. */
  lemma InlineOptions()
    ensures ParseFieldOptions(";inline") == FieldOptions([], true)
  {
    var secs := Util.SplitFirst(";inline", ';');
    assert secs[0] == [] && secs[1] == "inline";
    Util.SplitTrimmedWord("inline", ';');
  }

  /** Options without a ';' are never inline. */
  lemma NoFlagsNotInline(val: string)
    requires ';' !in val
    ensures !ParseFieldOptions(val).inline
  {
  }

  /** newContext: the dotted join of a context and a name, dropping an empty side. */
  function NewContext(context: string, name: string): string {
    if context == "" then name
    else if name == "" then context
    else context + "." + name
  }

  /** The empty context is a unit on both sides, and the join is associative. */
  lemma NewContextLaws(a: string, b: string, c: string)
    ensures NewContext("", a) == a && NewContext(a, "") == a
    ensures NewContext(NewContext(a, b), c) == NewContext(a, NewContext(b, c))
    ensures a != "" && b != "" ==> NewContext(a, b) == a + "." + b
  {
    if a != "" && b != "" && c != "" {
      assert (a + "." + b) + "." + c == a + "." + (b + "." + c);
    }
  }

  /** newIndex: the parent path followed by the local index. */
  function NewIndex(parent: seq<nat>, index: seq<nat>): (r: seq<nat>)
    ensures r == parent + index
  {
    if |parent| > 0 then parent + index else index
  }

  /** isSupportedOrBySlice: a registered type, else a slice of a registered element type. */
  function Lookup(reg: map<Ty, Codec>, t: Ty): Option<(bool, Codec)> {
    if t in reg then Some((false, reg[t]))
    else if t.Slice? && t.elem in reg then Some((true, reg[t.elem]))
    else None
  }

  /** Every registered codec is filed under its own data type. */
  ghost predicate RegistryConsistent(reg: map<Ty, Codec>) {
    forall t :: t in reg ==> DataType(reg[t]) == t
  }

  /**
   * In a consistent registry a field binds as a scalar exactly when its
   * type is registered, and as a slice exactly when it is an unregistered
   * slice of a registered type; the codec handles the (element) type.
   */
  lemma LookupKinds(reg: map<Ty, Codec>, t: Ty)
    requires RegistryConsistent(reg)
    ensures Lookup(reg, t).Some? && !Lookup(reg, t).value.0 <==> t in reg
    ensures Lookup(reg, t).Some? && Lookup(reg, t).value.0 <==> t !in reg && t.Slice? && t.elem in reg
    ensures Lookup(reg, t).Some? ==>
      DataType(Lookup(reg, t).value.1) == if Lookup(reg, t).value.0 then t.elem else t
  {
  }

  /** The options tag of a field. */
  function Options(cfg: Config, f: Field): FieldOptions {
    ParseFieldOptions(TagGet(f.tag, cfg.optionsTag))
  }

  /** isFieldSourcesValid: every source is whitelisted. */
  predicate SourcesValid(valid: seq<string>, srcs: seq<string>) {
    forall k :: 0 <= k < |srcs| ==> srcs[k] in valid
  }

  /** isFieldSourceExist: some recorded binding already uses the pair. */
  predicate SourceExists(bs: Schema, src: FieldSource) {
    exists a, x :: 0 <= a < |bs| && 0 <= x < |bs[a].sources| && bs[a].sources[x] == src
  }

  /** The name the first source gets: its own tag value, or else the default. */
  function FirstName(tag: map<string, string>, dflt: string, srcs: seq<string>): string
    requires |srcs| > 0
  {
    if TagGet(tag, srcs[0]) != "" then TagGet(tag, srcs[0]) else dflt
  }

  /** The name of source `k`: its own tag value, or else the first source's name. */
  function ResolvedName(tag: map<string, string>, dflt: string, srcs: seq<string>, k: nat): string
    requires k < |srcs|
  {
    if TagGet(tag, srcs[k]) != "" then TagGet(tag, srcs[k]) else FirstName(tag, dflt, srcs)
  }

  /**
   * The per-source loop of parse for one field with default name `dflt`:
   * resolve each source's name in order and fail at the first pair that a
   * recorded binding already uses.
   */
  function ResolveSources(tag: map<string, string>, dflt: string, srcs: seq<string>, bs: Schema): (r: Result<seq<FieldSource>, ParseError>)
    ensures r.Ok? <==> forall k :: 0 <= k < |srcs| ==> !SourceExists(bs, FieldSource(srcs[k], ResolvedName(tag, dflt, srcs, k)))
    ensures r.Ok? ==> |r.value| == |srcs|
    ensures r.Ok? ==> forall k :: 0 <= k < |srcs| ==> r.value[k] == FieldSource(srcs[k], ResolvedName(tag, dflt, srcs, k))
    decreases |srcs|
  {
    if srcs == [] then Ok([])
    else
      var init := srcs[..|srcs| - 1];
      match ResolveSources(tag, dflt, init, bs)
      case Err(e) => Err(e)
      case Ok(acc) =>
        var src := srcs[|srcs| - 1];
        var val := TagGet(tag, src);
        var name := if val != "" then val else if |acc| == 0 then dflt else acc[0].name;
        var fs := FieldSource(src, name);
        if SourceExists(bs, fs) then Err(DuplicatedFieldName(fs)) else Ok(acc + [fs])
  }

  predicate AllStruct(q: seq<Node>) {
    forall k :: 0 <= k < |q| ==> q[k].ty.Struct?
  }

  /** The total size of the types still queued: it bounds the work left. */
  function Measure(q: seq<Node>): nat {
    if q == [] then 0 else Measure(q[..|q| - 1]) + Size(q[|q| - 1].ty)
  }

  lemma MeasureAppend(q: seq<Node>, n: Node)
    ensures Measure(q + [n]) == Measure(q) + Size(n.ty)
  {
    assert (q + [n])[..|q|] == q;
  }

  lemma {:induction false} MeasureFront(q: seq<Node>)
    requires q != []
    ensures Measure(q) == Size(q[0].ty) + Measure(q[1..])
  {
    if |q| > 1 {
      var init := q[..|q| - 1];
      MeasureFront(init);
      assert init[1..] == q[1..][..|q[1..]| - 1];
    } else {
      assert q[1..] == [];
    }
  }

  /**
   * One field of a dequeued node, as the body of parse's inner loop: skip
   * it, enqueue it as a nested struct, fail, or record its binding.
   */
  function StepField(cfg: Config, n: Node, i: nat, q: seq<Node>, bs: Schema): (r: Result<(seq<Node>, Schema), ParseError>)
    requires n.ty.Struct? && i < |n.ty.fields|
    requires AllStruct(q)
    ensures r.Ok? ==> AllStruct(r.value.0) && Measure(r.value.0) <= Measure(q) + Size(n.ty.fields[i].ty)
  {
    var f := n.ty.fields[i];
    var name := cfg.conv(f.name);
    if name == "" then Ok((q, bs))
    else
      var opts := Options(cfg, f);
      match Lookup(cfg.reg, f.ty)
      case None =>
        if f.ty.Struct? then
          var ctx := if f.anonymous || opts.inline then n.context else NewContext(n.context, name);
          var child := Node(f.ty, NewIndex(n.path, [i]), ctx);
          MeasureAppend(q, child);
          Ok((q + [child], bs))
        else if |opts.sources| > 0 then Err(UnsupportedFieldType(f.name))
        else Ok((q, bs))
      case Some((isSlice, codec)) =>
        if |opts.sources| == 0 then Ok((q, bs))
        else if !SourcesValid(cfg.validSources, opts.sources) then Err(InvalidSource(f.name))
        else match ResolveSources(f.tag, NewContext(n.context, name), opts.sources, bs)
          case Err(e) => Err(e)
          case Ok(fss) => Ok((q, bs + [Binding(fss, f, NewIndex(n.path, [i]), isSlice, codec)]))
  }

  /** Fields `i..` of a dequeued node, in declaration order; the first error ends the walk. */
  function StepFields(cfg: Config, n: Node, i: nat, q: seq<Node>, bs: Schema): (r: Result<(seq<Node>, Schema), ParseError>)
    requires n.ty.Struct? && i <= |n.ty.fields|
    requires AllStruct(q)
    ensures r.Ok? ==> AllStruct(r.value.0) && Measure(r.value.0) <= Measure(q) + FieldsSize(n.ty.fields[i..])
    decreases |n.ty.fields| - i
  {
    if i == |n.ty.fields| then Ok((q, bs))
    else
      var fs := n.ty.fields;
      assert fs[i..][1..] == fs[i + 1..];
      match StepField(cfg, n, i, q, bs)
      case Err(e) => Err(e)
      case Ok((q1, bs1)) => StepFields(cfg, n, i + 1, q1, bs1)
  }

  /** The outer loop of parse: dequeue the first node, process its fields, repeat until the queue is empty. */
  function Walk(cfg: Config, q: seq<Node>, bs: Schema): Result<Schema, ParseError>
    requires AllStruct(q)
    decreases Measure(q)
  {
    if q == [] then Ok(bs)
    else
      MeasureFront(q);
      assert q[0].ty.fields[0..] == q[0].ty.fields;
      match StepFields(cfg, q[0], 0, q[1..], bs)
      case Err(e) => Err(e)
      case Ok((q1, bs1)) => Walk(cfg, q1, bs1)
  }

  /** parse: the walk from the root struct with the empty path and the empty context. */
  function DeriveSchema(cfg: Config, t: Ty): Result<Schema, ParseError>
    requires t.Struct?
  {
    Walk(cfg, [Node(t, [], "")], [])
  }
}
