/**
 * The Parser object: its configuration, the codec registry it fills and
 * the cache of derived schemas, with parse written as the nested loops of
 * the library and proved equal to the derivation of module Schema.
 */
module SchemaParser {
  import opened Wrappers
  import opened Reflection
  import opened Types
  import opened Schema
  import Util

  datatype ConfigError = EmptySourcesTag | EmptyValidSources | NilNameConverter

  datatype RegisterError = DuplicatedTypes(ty: Ty)

  /** RegisterTypes on a registry: add codecs in order, failing at the first data type already present. */
  function Register(reg: map<Ty, Codec>, cs: seq<Codec>): (map<Ty, Codec>, Outcome<RegisterError>)
    decreases |cs|
  {
    if cs == [] then (reg, Pass)
    else
      var dt := DataType(cs[0]);
      if dt in reg then (reg, Fail(DuplicatedTypes(dt))) else Register(reg[dt := cs[0]], cs[1..])
  }

  /** The data types of the first `j` codecs are new to `reg` and pairwise distinct. */
  predicate FreshPrefix(reg: map<Ty, Codec>, cs: seq<Codec>, j: nat)
    requires j <= |cs|
  {
    (forall a :: 0 <= a < j ==> DataType(cs[a]) !in reg) &&
    (forall a, b :: 0 <= a < b < j ==> DataType(cs[a]) != DataType(cs[b]))
  }

  predicate FreshTypes(reg: map<Ty, Codec>, cs: seq<Codec>) {
    FreshPrefix(reg, cs, |cs|)
  }

  /**
   * Registration succeeds exactly when every data type is new to the
   * registry and none repeats within the call.
   */
  lemma {:induction false} RegisterSucceeds(reg: map<Ty, Codec>, cs: seq<Codec>)
    ensures Register(reg, cs).1 == Pass <==> FreshTypes(reg, cs)
    decreases |cs|
  {
    if cs != [] {
      var dt := DataType(cs[0]);
      if dt !in reg {
        RegisterSucceeds(reg[dt := cs[0]], cs[1..]);
        if FreshTypes(reg[dt := cs[0]], cs[1..]) {
          forall a, b | 0 <= a < b < |cs| ensures DataType(cs[a]) != DataType(cs[b]) {
            if a > 0 { assert cs[a] == cs[1..][a - 1] && cs[b] == cs[1..][b - 1]; }
            else { assert cs[b] == cs[1..][b - 1]; }
          }
        }
        if FreshTypes(reg, cs) {
          forall a | 0 <= a < |cs[1..]| ensures DataType(cs[1..][a]) !in reg[dt := cs[0]] {
            assert cs[1..][a] == cs[a + 1];
          }
          forall a, b | 0 <= a < b < |cs[1..]| ensures DataType(cs[1..][a]) != DataType(cs[1..][b]) {
            assert cs[1..][a] == cs[a + 1] && cs[1..][b] == cs[b + 1];
          }
        }
      }
    }
  }

  /**
   * Registration never drops an entry, and every codec of a prefix that
   * could be registered without a clash is registered, even when a later
   * codec of the same call fails.
   */
  lemma {:induction false} RegisterKeepsEarlier(reg: map<Ty, Codec>, cs: seq<Codec>, j: nat)
    requires j <= |cs| && FreshPrefix(reg, cs, j)
    ensures forall t :: t in reg ==> t in Register(reg, cs).0 && Register(reg, cs).0[t] == reg[t]
    ensures forall a :: 0 <= a < j ==>
      DataType(cs[a]) in Register(reg, cs).0 && Register(reg, cs).0[DataType(cs[a])] == cs[a]
    decreases |cs|
  {
    if cs != [] {
      var dt := DataType(cs[0]);
      if dt !in reg {
        var reg1 := reg[dt := cs[0]];
        var j1 := if j == 0 then 0 else j - 1;
        forall a | 0 <= a < j1 ensures DataType(cs[1..][a]) !in reg1 {
          assert cs[1..][a] == cs[a + 1];
        }
        forall a, b | 0 <= a < b < j1 ensures DataType(cs[1..][a]) != DataType(cs[1..][b]) {
          assert cs[1..][a] == cs[a + 1] && cs[1..][b] == cs[b + 1];
        }
        RegisterKeepsEarlier(reg1, cs[1..], j1);
        forall a | 0 <= a < j
          ensures DataType(cs[a]) in Register(reg, cs).0 && Register(reg, cs).0[DataType(cs[a])] == cs[a]
        {
          if a > 0 { assert cs[a] == cs[1..][a - 1]; }
        }
      }
    }
  }

  /** Registration files every codec under its own data type. */
  lemma {:induction false} RegisterConsistent(reg: map<Ty, Codec>, cs: seq<Codec>)
    requires RegistryConsistent(reg)
    ensures RegistryConsistent(Register(reg, cs).0)
    decreases |cs|
  {
    if cs != [] && DataType(cs[0]) !in reg {
      RegisterConsistent(reg[DataType(cs[0]) := cs[0]], cs[1..]);
    }
  }

  /** The builtin codecs register into an empty registry without a clash. */
  lemma BuiltinsRegister(float32Codec: Codec, float64Codec: Codec)
    requires DataType(float32Codec) == Basic("float32") && DataType(float64Codec) == Basic("float64")
    ensures Register(map[], BuiltinTypes(float32Codec, float64Codec)).1 == Pass
  {
    RegisterSucceeds(map[], BuiltinTypes(float32Codec, float64Codec));
  }

  /** What remains of parse once fields `..i` of `n` are done: the rest of the node, then the rest of the walk. */
  function Continue(cfg: Config, n: Node, i: nat, q: seq<Node>, bs: Schema): Result<Schema, ParseError>
    requires n.ty.Struct? && i <= |n.ty.fields| && AllStruct(q)
  {
    match StepFields(cfg, n, i, q, bs)
    case Err(e) => Err(e)
    case Ok((q1, bs1)) => Walk(cfg, q1, bs1)
  }

  /** Once a prefix of the sources fails, the whole field fails with the same error. */
  lemma {:induction false} ResolveErrPropagates(tag: map<string, string>, dflt: string, srcs: seq<string>, bs: Schema, j: nat)
    requires j <= |srcs| && ResolveSources(tag, dflt, srcs[..j], bs).Err?
    ensures ResolveSources(tag, dflt, srcs, bs) == ResolveSources(tag, dflt, srcs[..j], bs)
    decreases |srcs|
  {
    if j < |srcs| {
      var init := srcs[..|srcs| - 1];
      assert init[..j] == srcs[..j];
      ResolveErrPropagates(tag, dflt, init, bs, j);
    } else {
      assert srcs[..j] == srcs;
    }
  }

  /** One more source: the pair it resolves to is appended unless a recorded binding already uses it. */
  lemma ResolveStep(tag: map<string, string>, dflt: string, srcs: seq<string>, bs: Schema, j: nat, acc: seq<FieldSource>)
    requires j < |srcs| && ResolveSources(tag, dflt, srcs[..j], bs) == Ok(acc)
    ensures
      var v := TagGet(tag, srcs[j]);
      var fs := FieldSource(srcs[j], if v != "" then v else if j == 0 then dflt else acc[0].name);
      ResolveSources(tag, dflt, srcs[..j + 1], bs) == if SourceExists(bs, fs) then Err(DuplicatedFieldName(fs)) else Ok(acc + [fs])
  {
    var pre := srcs[..j + 1];
    assert pre[..|pre| - 1] == srcs[..j];
  }

  class Parser {
    const optionsTag: string
    const validSources: seq<string>
    const nameConverter: string -> string
    var supportTypes: map<Ty, Codec>
    var structures: map<Ty, Schema>

    constructor (optionsTag: string, validSources: seq<string>, nameConverter: string -> string)
      ensures this.optionsTag == optionsTag && this.validSources == validSources
      ensures this.nameConverter == nameConverter
      ensures supportTypes == map[] && structures == map[]
    {
      this.optionsTag := optionsTag;
      this.validSources := validSources;
      this.nameConverter := nameConverter;
      supportTypes := map[];
      structures := map[];
    }

    /** The parser's configuration as the derivation reads it. */
    function Cfg(): Config
      reads this
    {
      Config(optionsTag, validSources, nameConverter, supportTypes)
    }

    /** The result Parse gives for `t` in the current state. */
    ghost function SchemaOf(t: Ty): Result<Schema, ParseError>
      reads this
    {
      if !t.Struct? then Err(NotAStructure(t))
      else if t in structures then Ok(structures[t])
      else DeriveSchema(Cfg(), t)
    }

    /** Every cached schema is the one the current configuration derives. */
    ghost predicate CacheConsistent()
      reads this
    {
      forall t :: t in structures ==> t.Struct? && DeriveSchema(Cfg(), t) == Ok(structures[t])
    }

    /** With a consistent cache, Parse gives exactly the derived schema. */
    lemma CachedIsDerived(t: Ty)
      requires CacheConsistent() && t.Struct?
      ensures SchemaOf(t) == DeriveSchema(Cfg(), t)
    {
    }

    method RegisterTypes(cs: seq<Codec>) returns (r: Outcome<RegisterError>)
      modifies this`supportTypes
      ensures (supportTypes, r) == Register(old(supportTypes), cs)
    {
      for i := 0 to |cs|
        invariant Register(supportTypes, cs[i..]) == Register(old(supportTypes), cs)
      {
        assert cs[i..][1..] == cs[i + 1..];
        var dt := DataType(cs[i]);
        if dt in supportTypes {
          return Fail(DuplicatedTypes(dt));
        }
        supportTypes := supportTypes[dt := cs[i]];
      }
      return Pass;
    }

    /** isFieldSourceExist: search every source of every recorded binding. */
    method IsFieldSourceExist(bs: Schema, src: FieldSource) returns (found: bool)
      ensures found <==> SourceExists(bs, src)
    {
      for a := 0 to |bs|
        invariant forall a', x :: 0 <= a' < a && 0 <= x < |bs[a'].sources| ==> bs[a'].sources[x] != src
      {
        for x := 0 to |bs[a].sources|
          invariant forall x' :: 0 <= x' < x ==> bs[a].sources[x'] != src
        {
          if bs[a].sources[x] == src {
            return true;
          }
        }
      }
      return false;
    }

    /** isFieldSourcesValid: every source is in the whitelist. */
    method IsFieldSourcesValid(srcs: seq<string>) returns (ok: bool)
      ensures ok <==> SourcesValid(validSources, srcs)
    {
      for k := 0 to |srcs|
        invariant SourcesValid(validSources, srcs[..k])
      {
        var has := Util.HasString(validSources, srcs[k]);
        if !has {
          assert !SourcesValid(validSources, srcs) by {
            assert srcs[k] !in validSources;
          }
          return false;
        }
        assert srcs[..k + 1] == srcs[..k] + [srcs[k]];
      }
      assert srcs[..|srcs|] == srcs;
      return true;
    }

    /** The per-source loop of parse for one field. */
    method ResolveFieldSources(f: Field, context: string, name: string, srcs: seq<string>, bs: Schema)
      returns (r: Result<seq<FieldSource>, ParseError>)
      ensures r == ResolveSources(f.tag, NewContext(context, name), srcs, bs)
    {
      var fieldSources: seq<FieldSource> := [];
      for j := 0 to |srcs|
        invariant ResolveSources(f.tag, NewContext(context, name), srcs[..j], bs) == Ok(fieldSources)
      {
        ResolveStep(f.tag, NewContext(context, name), srcs, bs, j, fieldSources);
        var src := srcs[j];
        var val := TagGet(f.tag, src);
        if val == "" {
          if j == 0 {
            val := NewContext(context, name);
          } else {
            val := fieldSources[0].name;
          }
        }
        var source := FieldSource(src, val);
        var dup := IsFieldSourceExist(bs, source);
        if dup {
          ResolveErrPropagates(f.tag, NewContext(context, name), srcs, bs, j + 1);
          return Err(DuplicatedFieldName(source));
        }
        fieldSources := fieldSources + [source];
      }
      assert srcs[..|srcs|] == srcs;
      return Ok(fieldSources);
    }

    /** The body of parse's field loop for field `i` of `node`. */
    method ParseField(node: Node, i: nat, queue: seq<Node>, bs: Schema) returns (r: Result<(seq<Node>, Schema), ParseError>)
      requires node.ty.Struct? && i < |node.ty.fields| && AllStruct(queue)
      ensures r == StepField(Cfg(), node, i, queue, bs)
    {
      var f := node.ty.fields[i];
      var name := nameConverter(f.name);
      if name == "" {
        return Ok((queue, bs));
      }
      var options := ParseFieldOptions(TagGet(f.tag, optionsTag));
      var lookup := Lookup(supportTypes, f.ty);
      if lookup.None? {
        if f.ty.Struct? {
          if f.anonymous || options.inline {
            return Ok((queue + [Node(f.ty, NewIndex(node.path, [i]), node.context)], bs));
          } else {
            return Ok((queue + [Node(f.ty, NewIndex(node.path, [i]), NewContext(node.context, name))], bs));
          }
        } else if |options.sources| > 0 {
          return Err(UnsupportedFieldType(f.name));
        }
        return Ok((queue, bs));
      }
      var (isSlice, enc) := lookup.value;
      if |options.sources| == 0 {
        return Ok((queue, bs));
      }
      var valid := IsFieldSourcesValid(options.sources);
      if !valid {
        return Err(InvalidSource(f.name));
      }
      var fieldSources := ResolveFieldSources(f, node.context, name, options.sources, bs);
      if fieldSources.Err? {
        return Err(fieldSources.error);
      }
      return Ok((queue, bs + [Binding(fieldSources.value, f, NewIndex(node.path, [i]), isSlice, enc)]));
    }

    /** parse: the breadth-first walk over a work queue of struct nodes. */
    method ParseType(typ: Ty) returns (r: Result<Schema, ParseError>)
      requires typ.Struct?
      ensures r == DeriveSchema(Cfg(), typ)
    {
      var cfg := Cfg();
      var typeInfo: Schema := [];
      var parseQueue := [Node(typ, [], "")];
      while parseQueue != []
        invariant AllStruct(parseQueue)
        invariant Walk(cfg, parseQueue, typeInfo) == DeriveSchema(cfg, typ)
        decreases Measure(parseQueue)
      {
        ghost var before := parseQueue;
        MeasureFront(parseQueue);
        assert parseQueue[0].ty.fields[0..] == parseQueue[0].ty.fields;
        var node := parseQueue[0];
        parseQueue := parseQueue[1..];
        var fields := node.ty.fields;
        for i := 0 to |fields|
          invariant AllStruct(parseQueue)
          invariant Continue(cfg, node, i, parseQueue, typeInfo) == DeriveSchema(cfg, typ)
          invariant Measure(parseQueue) + FieldsSize(fields[i..]) < Measure(before)
        {
          assert fields[i..][1..] == fields[i + 1..];
          var step := ParseField(node, i, parseQueue, typeInfo);
          if step.Err? {
            return Err(step.error);
          }
          parseQueue, typeInfo := step.value.0, step.value.1;
        }
        assert fields[|fields|..] == [];
      }
      return Ok(typeInfo);
    }

    /**
     * Parse: reject a non-struct type, answer from the cache, or derive and
     * cache the schema; a failed derivation is not cached.
     */
    method Parse(t: Ty) returns (r: Result<Schema, ParseError>)
      modifies this`structures
      ensures r == old(SchemaOf(t))
      ensures structures == if t.Struct? && t !in old(structures) && r.Ok? then old(structures)[t := r.value] else old(structures)
      ensures old(CacheConsistent()) ==> CacheConsistent()
    {
      if !t.Struct? {
        return Err(NotAStructure(t));
      }
      if t in structures {
        return Ok(structures[t]);
      }
      r := ParseType(t);
      if r.Ok? {
        structures := structures[t := r.value];
      }
    }
  }

  /** NewParser: validate the configuration in the library's order. */
  method NewParser(optionsTag: string, validSources: seq<string>, fieldNameConverter: Option<string -> string>)
    returns (r: Result<Parser, ConfigError>)
    ensures optionsTag == "" ==> r == Err(EmptySourcesTag)
    ensures optionsTag != "" && |validSources| == 0 ==> r == Err(EmptyValidSources)
    ensures optionsTag != "" && |validSources| > 0 && fieldNameConverter.None? ==> r == Err(NilNameConverter)
    ensures r.Ok? <==> optionsTag != "" && |validSources| > 0 && fieldNameConverter.Some?
    ensures r.Ok? ==> fresh(r.value)
    ensures r.Ok? ==> r.value.optionsTag == optionsTag && r.value.validSources == validSources
    ensures r.Ok? ==> r.value.nameConverter == fieldNameConverter.value
    ensures r.Ok? ==> r.value.supportTypes == map[] && r.value.structures == map[]
  {
    if optionsTag == "" {
      return Err(EmptySourcesTag);
    }
    if |validSources| == 0 {
      return Err(EmptyValidSources);
    }
    if fieldNameConverter.None? {
      return Err(NilNameConverter);
    }
    var p := new Parser(optionsTag, validSources, fieldNameConverter.value);
    return Ok(p);
  }
}
