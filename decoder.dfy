/**
 * The decode engine: for every binding of the target's schema, query its
 * sources in order, take the first non-empty value list, decode it with
 * the binding's codec and write the result into the bound slot.
 */
module Decoding {
  import opened Wrappers
  import opened Reflection
  import opened Types
  import opened Schema
  import SchemaParser

  /** A DecoderSource backed by a map, as the map-backed source of the library's tests. */
  type SourceMap = map<(string, string), seq<string>>

  /** Get: the values of `(source, field)`, none when absent. */
  function Get(src: SourceMap, source: string, field: string): seq<string> {
    if (source, field) in src then src[(source, field)] else []
  }

  datatype FieldError =
    | MultipleValues(vals: seq<string>)   // a non-slice field given other than one value
    | CodecFailed(e: CodecError)
    | DifferentType                        // the decoded value is not of the field's type

  datatype DecodeError =
    | NotAPointer
    | SchemaFailed(parseError: ParseError)
    | DuplicatedValues(updatedFrom: FieldSource, source: FieldSource)
    | InvalidFieldValues(source: FieldSource, fieldError: FieldError)

  /** Decode every value in order; the first failure is the result. */
  function DecodeEach(c: Codec, vals: seq<string>): (r: Result<seq<Native>, CodecError>)
    ensures r.Ok? <==> forall k :: 0 <= k < |vals| ==> Decode(c, vals[k]).Ok?
    ensures r.Ok? ==> |r.value| == |vals| && forall k :: 0 <= k < |vals| ==> Decode(c, vals[k]) == Ok(r.value[k])
    decreases |vals|
  {
    if vals == [] then Ok([])
    else
      match DecodeEach(c, vals[..|vals| - 1])
      case Err(e) => Err(e)
      case Ok(ns) =>
        match Decode(c, vals[|vals| - 1])
        case Err(e) => Err(e)
        case Ok(n) => Ok(ns + [n])
  }

  /** Once a prefix fails, decoding the whole list fails the same way. */
  lemma {:induction false} DecodeEachErrPropagates(c: Codec, vals: seq<string>, j: nat)
    requires j <= |vals| && DecodeEach(c, vals[..j]).Err?
    ensures DecodeEach(c, vals) == DecodeEach(c, vals[..j])
    decreases |vals|
  {
    if j < |vals| {
      assert vals[..|vals| - 1][..j] == vals[..j];
      DecodeEachErrPropagates(c, vals[..|vals| - 1], j);
    } else {
      assert vals[..j] == vals;
    }
  }

  /**
   * decodeStringsToType: a slice binding decodes every value; a scalar one
   * needs exactly one value, and the empty string stands for no value.
   */
  function DecodeStrings(b: Binding, vals: seq<string>): Result<Option<Val>, FieldError> {
    if b.isSlice then
      match DecodeEach(b.codec, vals)
      case Err(e) => Err(CodecFailed(e))
      case Ok(ns) => Ok(Some(Items(ns)))
    else if |vals| != 1 then Err(MultipleValues(vals))
    else if vals[0] == "" then Ok(None)
    else match Decode(b.codec, vals[0])
      case Err(e) => Err(CodecFailed(e))
      case Ok(n) => Ok(Some(Scalar(n)))
  }

  /**
   * A slice binding decodes every value in order, to a list of the same
   * length, and fails when any value fails; a scalar binding needs exactly
   * one value, and `[""]` gives no value at all.
   */
  lemma DecodeStringsSpec(b: Binding, vals: seq<string>)
    ensures b.isSlice ==>
      (DecodeStrings(b, vals).Ok? <==> forall k :: 0 <= k < |vals| ==> Decode(b.codec, vals[k]).Ok?)
    ensures b.isSlice && DecodeStrings(b, vals).Ok? ==>
      var x := DecodeStrings(b, vals).value;
      x.Some? && x.value.Items? && |x.value.ns| == |vals| &&
      forall k :: 0 <= k < |vals| ==> Decode(b.codec, vals[k]) == Ok(x.value.ns[k])
    ensures !b.isSlice && |vals| != 1 ==> DecodeStrings(b, vals) == Err(MultipleValues(vals))
    ensures !b.isSlice && vals == [""] ==> DecodeStrings(b, vals) == Ok(None)
    ensures !b.isSlice && |vals| == 1 && vals[0] != "" ==>
      (DecodeStrings(b, vals).Ok? <==> Decode(b.codec, vals[0]).Ok?) &&
      (DecodeStrings(b, vals).Ok? ==> DecodeStrings(b, vals) == Ok(Some(Scalar(Decode(b.codec, vals[0]).value))))
  {
  }

  /** The runtime value has the Go type `t`. */
  predicate HasType(x: Val, t: Ty) {
    match x
    case Scalar(n) => NativeTy(n) == t
    case Items(ns) => t.Slice? && forall k :: 0 <= k < |ns| ==> NativeTy(ns[k]) == t.elem
    case _ => false
  }

  /** decodeField: decode, check the type, and write the slot at the binding's path. */
  function WriteField(b: Binding, vals: seq<string>, v: Val): Result<(Val, bool), FieldError> {
    match DecodeStrings(b, vals)
    case Err(e) => Err(e)
    case Ok(None) => Ok((v, false))
    case Ok(Some(x)) =>
      if !HasType(x, b.field.ty) then Err(DifferentType) else Ok((SetAt(v, b.path, x), true))
  }

  /** The source that has written the binding so far; no source yet is the zero pair. */
  const NoSource := FieldSource("", "")

  /** The source loop of Decode for one binding, from source `j` on. */
  function DecodeSources(b: Binding, src: SourceMap, j: nat, updatedFrom: FieldSource, v: Val): (Val, Outcome<DecodeError>)
    requires j <= |b.sources|
    decreases |b.sources| - j
  {
    if j == |b.sources| then (v, Pass)
    else
      var s := b.sources[j];
      var vals := Get(src, s.source, s.name);
      if |vals| == 0 then DecodeSources(b, src, j + 1, updatedFrom, v)
      else if updatedFrom.source != "" then (v, Fail(DuplicatedValues(updatedFrom, s)))
      else match WriteField(b, vals, v)
        case Err(e) => (v, Fail(InvalidFieldValues(s, e)))
        case Ok((v1, ok)) => DecodeSources(b, src, j + 1, if ok then s else updatedFrom, v1)
  }

  /** The field loop of Decode, from binding `i` on; writes already made are kept on failure. */
  function DecodeBindings(schema: Schema, src: SourceMap, i: nat, v: Val): (Val, Outcome<DecodeError>)
    requires i <= |schema|
    decreases |schema| - i
  {
    if i == |schema| then (v, Pass)
    else
      var (v1, o) := DecodeSources(schema[i], src, 0, NoSource, v);
      if o.Fail? then (v1, o) else DecodeBindings(schema, src, i + 1, v1)
  }

  /** Decode once the target's schema has been looked up. */
  function DecodeWith(schema: Result<Schema, ParseError>, src: SourceMap, v: Val): (Val, Outcome<DecodeError>) {
    match schema
    case Err(e) => (v, Fail(SchemaFailed(e)))
    case Ok(s) => DecodeBindings(s, src, 0, v)
  }

  /** The rest of Decode from source `j` of binding `i`. */
  function ResumeDecode(schema: Schema, src: SourceMap, i: nat, j: nat, updatedFrom: FieldSource, v: Val): (Val, Outcome<DecodeError>)
    requires i < |schema| && j <= |schema[i].sources|
  {
    var (v1, o) := DecodeSources(schema[i], src, j, updatedFrom, v);
    if o.Fail? then (v1, o) else DecodeBindings(schema, src, i + 1, v1)
  }

  /** Sources `m..n` with no values are skipped without effect. */
  lemma {:induction false} SkipEmptySources(b: Binding, src: SourceMap, m: nat, n: nat, updatedFrom: FieldSource, v: Val)
    requires m <= n <= |b.sources|
    requires forall k :: m <= k < n ==> Get(src, b.sources[k].source, b.sources[k].name) == []
    ensures DecodeSources(b, src, m, updatedFrom, v) == DecodeSources(b, src, n, updatedFrom, v)
    decreases n - m
  {
    if m < n {
      SkipEmptySources(b, src, m + 1, n, updatedFrom, v);
    }
  }

  /**
   * Once source `j` has written the field, the next source with values
   * makes Decode fail with a conflict naming both, and the write of `j`
   * stays.
   */
  lemma ConflictingSources(b: Binding, src: SourceMap, j: nat, k: nat, v: Val, v1: Val)
    requires j < k < |b.sources|
    requires forall m :: 0 <= m < k && m != j ==> Get(src, b.sources[m].source, b.sources[m].name) == []
    requires Get(src, b.sources[j].source, b.sources[j].name) != []
    requires Get(src, b.sources[k].source, b.sources[k].name) != []
    requires WriteField(b, Get(src, b.sources[j].source, b.sources[j].name), v) == Ok((v1, true))
    requires b.sources[j].source != ""
    ensures DecodeSources(b, src, 0, NoSource, v) == (v1, Fail(DuplicatedValues(b.sources[j], b.sources[k])))
  {
    SkipEmptySources(b, src, 0, j, NoSource, v);
    SkipEmptySources(b, src, j + 1, k, b.sources[j], v1);
  }

  /**
   * A tag may name the same source twice (parse accepts it): once that
   * source has values, decoding the field always reports a conflict.
   */
  lemma RepeatedSourceConflicts(b: Binding, src: SourceMap, v: Val, v1: Val)
    requires |b.sources| >= 2 && b.sources[0] == b.sources[1] && b.sources[0].source != ""
    requires Get(src, b.sources[0].source, b.sources[0].name) != []
    requires WriteField(b, Get(src, b.sources[0].source, b.sources[0].name), v) == Ok((v1, true))
    ensures DecodeSources(b, src, 0, NoSource, v) == (v1, Fail(DuplicatedValues(b.sources[0], b.sources[0])))
  {
    ConflictingSources(b, src, 0, 1, v, v1);
  }

  /**
   * For a scalar binding the single value "" counts as absent: the field
   * is left as it is and a later source may still supply it.
   */
  lemma EmptyStringIsAbsent(b: Binding, src: SourceMap, j: nat, v: Val)
    requires !b.isSlice && j < |b.sources|
    requires Get(src, b.sources[j].source, b.sources[j].name) == [""]
    ensures DecodeSources(b, src, j, NoSource, v) == DecodeSources(b, src, j + 1, NoSource, v)
  {
  }

  /** Decoding one binding leaves every slot disjoint from its path as it was. */
  lemma {:induction false} DecodeSourcesFrame(b: Binding, src: SourceMap, j: nat, updatedFrom: FieldSource, v: Val, q: seq<nat>)
    requires j <= |b.sources| && Independent(b.path, q)
    ensures GetAt(DecodeSources(b, src, j, updatedFrom, v).0, q) == GetAt(v, q)
    decreases |b.sources| - j
  {
    if j < |b.sources| {
      var s := b.sources[j];
      var vals := Get(src, s.source, s.name);
      if |vals| == 0 {
        DecodeSourcesFrame(b, src, j + 1, updatedFrom, v, q);
      } else if updatedFrom.source == "" {
        match WriteField(b, vals, v)
        case Err(_) =>
        case Ok((v1, ok)) =>
          if v1 != v {
            GetAfterSetElsewhere(v, b.path, q, DecodeStrings(b, vals).value.value);
          }
          DecodeSourcesFrame(b, src, j + 1, if ok then s else updatedFrom, v1, q);
      }
    }
  }

  /** Decode changes only the slots of the schema's bindings. */
  lemma {:induction false} DecodeFrame(schema: Schema, src: SourceMap, i: nat, v: Val, q: seq<nat>)
    requires i <= |schema|
    requires forall a :: i <= a < |schema| ==> Independent(schema[a].path, q)
    ensures GetAt(DecodeBindings(schema, src, i, v).0, q) == GetAt(v, q)
    decreases |schema| - i
  {
    if i < |schema| {
      var (v1, o) := DecodeSources(schema[i], src, 0, NoSource, v);
      DecodeSourcesFrame(schema[i], src, 0, NoSource, v, q);
      if o.Pass? {
        DecodeFrame(schema, src, i + 1, v1, q);
      }
    }
  }

  /**
   * With a consistent registry, a builtin codec found by the lookup always
   * produces a value of the field's type, so the type check never fires.
   */
  lemma BuiltinPassesTypeCheck(reg: map<Ty, Codec>, b: Binding, vals: seq<string>, v: Val)
    requires RegistryConsistent(reg) && Lookup(reg, b.field.ty) == Some((b.isSlice, b.codec)) && IsBuiltin(b.codec)
    ensures WriteField(b, vals, v) != Err(DifferentType)
  {
    LookupKinds(reg, b.field.ty);
    match DecodeStrings(b, vals)
    case Ok(Some(Scalar(n))) =>
      DecodeGivesDataType(b.codec, vals[0]);
    case Ok(Some(Items(ns))) =>
      forall k | 0 <= k < |ns| ensures NativeTy(ns[k]) == b.field.ty.elem {
        DecodeGivesDataType(b.codec, vals[k]);
      }
    case _ =>
  }

  class Decoder {
    const parser: SchemaParser.Parser

    /** NewDecoder. */
    constructor (p: SchemaParser.Parser)
      ensures parser == p
    {
      parser := p;
    }

    method DecodeStringsToType(b: Binding, vals: seq<string>) returns (r: Result<Option<Val>, FieldError>)
      ensures r == DecodeStrings(b, vals)
    {
      if b.isSlice {
        var refv: seq<Native> := [];
        for k := 0 to |vals|
          invariant DecodeEach(b.codec, vals[..k]) == Ok(refv)
        {
          assert vals[..k + 1][..k] == vals[..k];
          var val := Types.Decode(b.codec, vals[k]);
          if val.Err? {
            DecodeEachErrPropagates(b.codec, vals, k + 1);
            return Err(CodecFailed(val.error));
          }
          refv := refv + [val.value];
        }
        assert vals[..|vals|] == vals;
        return Ok(Some(Items(refv)));
      }
      if |vals| != 1 {
        return Err(MultipleValues(vals));
      }
      if vals[0] == "" {
        return Ok(None);
      }
      var val := Types.Decode(b.codec, vals[0]);
      if val.Err? {
        return Err(CodecFailed(val.error));
      }
      return Ok(Some(Scalar(val.value)));
    }

    method DecodeField(target: Box, b: Binding, vals: seq<string>) returns (r: Result<bool, FieldError>)
      modifies target
      ensures match WriteField(b, vals, old(target.value))
        case Err(e) => r == Err(e) && target.value == old(target.value)
        case Ok((v1, ok)) => r == Ok(ok) && target.value == v1
    {
      var val := DecodeStringsToType(b, vals);
      if val.Err? {
        return Err(val.error);
      }
      if val.value.None? {
        return Ok(false);
      }
      if !HasType(val.value.value, b.field.ty) {
        return Err(DifferentType);
      }
      target.value := SetAt(target.value, b.path, val.value.value);
      return Ok(true);
    }

    /** The source loop of Decode for one binding. */
    method DecodeSourcesInto(target: Box, field: Binding, s: SourceMap) returns (r: Outcome<DecodeError>)
      modifies target
      ensures (target.value, r) == DecodeSources(field, s, 0, NoSource, old(target.value))
    {
      var updatedFrom := NoSource;
      for j := 0 to |field.sources|
        invariant DecodeSources(field, s, j, updatedFrom, target.value) == DecodeSources(field, s, 0, NoSource, old(target.value))
      {
        var source := field.sources[j];
        var vals := Get(s, source.source, source.name);
        if |vals| == 0 {
          continue;
        }
        if updatedFrom.source != "" {
          return Fail(DuplicatedValues(updatedFrom, source));
        }
        var ok := DecodeField(target, field, vals);
        if ok.Err? {
          return Fail(InvalidFieldValues(source, ok.error));
        }
        if ok.value {
          updatedFrom := source;
        }
      }
      return Pass;
    }

    method Decode(s: SourceMap, v: Arg) returns (r: Outcome<DecodeError>)
      modifies parser`structures, v.Objects()
      ensures v.Plain? ==> r == Fail(NotAPointer) && parser.structures == old(parser.structures)
      ensures v.Pointer? ==> (v.box.value, r) == DecodeWith(old(parser.SchemaOf(v.box.ty)), s, old(v.box.value))
      ensures old(parser.CacheConsistent()) ==> parser.CacheConsistent()
    {
      if v.Plain? {
        return Fail(NotAPointer);
      }
      var refv := v.box;
      var typInfo := parser.Parse(refv.ty);
      if typInfo.Err? {
        return Fail(SchemaFailed(typInfo.error));
      }
      r := DecodeBindingsInto(refv, typInfo.value, s);
    }

    /** The field loop of Decode: every binding in schema order, stopping at the first failure. */
    method DecodeBindingsInto(target: Box, fields: Schema, s: SourceMap) returns (r: Outcome<DecodeError>)
      modifies target
      ensures (target.value, r) == DecodeBindings(fields, s, 0, old(target.value))
    {
      for i := 0 to |fields|
        invariant DecodeBindings(fields, s, i, target.value) == DecodeBindings(fields, s, 0, old(target.value))
      {
        r := DecodeSourcesInto(target, fields[i], s);
        if r.Fail? {
          return;
        }
      }
      return Pass;
    }
  }
}
