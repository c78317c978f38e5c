/**
 * The encode engine: for every binding of the value's schema, encode the
 * bound slot to strings and hand them to the destination, trying the
 * binding's sources in order until one accepts.
 */
module Encoding {
  import opened Wrappers
  import opened Reflection
  import opened Types
  import opened Schema
  import SchemaParser

  type Store = map<(string, string), seq<string>>

  datatype EncodeFailure =
    | CodecFailed(e: CodecError)
    | NotOfFieldShape          // the slot does not hold a value of the binding's shape

  datatype EncodeError =
    | SchemaFailed(parseError: ParseError)
    | EncodeFieldFailed(field: string, first: FieldSource, failure: EncodeFailure)
    | SetFieldFailed(field: string, source: FieldSource)
    | CannotSet(field: string, first: FieldSource)

  /** The source error messages name: the first of the binding (parse records at least one). */
  function FirstSource(b: Binding): FieldSource {
    if |b.sources| > 0 then b.sources[0] else FieldSource("", "")
  }

  /** One call of the destination's Set. */
  datatype SetCall = SetCall(source: string, field: string, vals: seq<string>)

  /**
   * What the destination holds: the values it accepted, and the log of
   * every Set call made on it, in order.
   */
  datatype DestState = DestState(store: Store, log: seq<SetCall>)

  /**
   * The destination's answer to Set(source, field, vals): `fails` says
   * where it reports an error, `accepts` where it takes the values.
   */
  function SetResult(accepts: (string, string) -> bool, fails: (string, string) -> bool,
                     st: DestState, source: string, field: string, vals: seq<string>): (DestState, bool, bool)
  {
    var failed := fails(source, field);
    var ok := !failed && accepts(source, field);
    (DestState(if ok then st.store[(source, field) := vals] else st.store,
               st.log + [SetCall(source, field, vals)]), ok, failed)
  }

  /** An EncoderDestination with a map store, such as the map-backed one of the library's tests. */
  class Destination {
    const accepts: (string, string) -> bool
    const fails: (string, string) -> bool
    var store: Store
    var log: seq<SetCall>

    constructor (accepts: (string, string) -> bool, fails: (string, string) -> bool, store: Store)
      ensures this.accepts == accepts && this.fails == fails && this.store == store && log == []
    {
      this.accepts := accepts;
      this.fails := fails;
      this.store := store;
      log := [];
    }

    function State(): DestState
      reads this
    {
      DestState(store, log)
    }

    method Set(source: string, field: string, vals: seq<string>) returns (ok: bool, failed: bool)
      modifies this
      ensures (State(), ok, failed) == SetResult(accepts, fails, old(State()), source, field, vals)
    {
      failed := fails(source, field);
      ok := !failed && accepts(source, field);
      if ok {
        store := store[(source, field) := vals];
      }
      log := log + [SetCall(source, field, vals)];
    }
  }

  /** Encode every element in order; the first failure is the result. */
  function EncodeEach(c: Codec, ns: seq<Native>): (r: Result<seq<string>, CodecError>)
    ensures r.Ok? <==> forall k :: 0 <= k < |ns| ==> Encode(c, ns[k]).Ok?
    ensures r.Ok? ==> |r.value| == |ns| && forall k :: 0 <= k < |ns| ==> Encode(c, ns[k]) == Ok(r.value[k])
    decreases |ns|
  {
    if ns == [] then Ok([])
    else
      match EncodeEach(c, ns[..|ns| - 1])
      case Err(e) => Err(e)
      case Ok(ss) =>
        match Encode(c, ns[|ns| - 1])
        case Err(e) => Err(e)
        case Ok(s) => Ok(ss + [s])
  }

  lemma {:induction false} EncodeEachErrPropagates(c: Codec, ns: seq<Native>, j: nat)
    requires j <= |ns| && EncodeEach(c, ns[..j]).Err?
    ensures EncodeEach(c, ns) == EncodeEach(c, ns[..j])
    decreases |ns|
  {
    if j < |ns| {
      assert ns[..|ns| - 1][..j] == ns[..j];
      EncodeEachErrPropagates(c, ns[..|ns| - 1], j);
    } else {
      assert ns[..j] == ns;
    }
  }

  /**
   * encodeTypeToStrings: a slice becomes one string per element (none
   * for an empty slice); a scalar becomes one string, or none when it
   * encodes to "".
   */
  function EncodeStrings(b: Binding, x: Val): Result<seq<string>, EncodeFailure> {
    if b.isSlice then
      if !x.Items? then Err(NotOfFieldShape)
      else if |x.ns| == 0 then Ok([])
      else match EncodeEach(b.codec, x.ns)
        case Err(e) => Err(CodecFailed(e))
        case Ok(ss) => Ok(ss)
    else
      if !x.Scalar? then Err(NotOfFieldShape)
      else match Encode(b.codec, x.n)
        case Err(e) => Err(CodecFailed(e))
        case Ok(s) => Ok(if s == "" then [] else [s])
  }

  /**
   * A slice encodes to one string per element, in order, and fails when
   * any element fails; a scalar that encodes to "" gives no strings; a
   * value of the wrong shape is refused.
   */
  lemma EncodeStringsSpec(b: Binding, x: Val)
    ensures b.isSlice && x.Items? ==>
      (EncodeStrings(b, x).Ok? <==> forall k :: 0 <= k < |x.ns| ==> Encode(b.codec, x.ns[k]).Ok?)
    ensures b.isSlice && x.Items? && EncodeStrings(b, x).Ok? ==>
      |EncodeStrings(b, x).value| == |x.ns| &&
      forall k :: 0 <= k < |x.ns| ==> Encode(b.codec, x.ns[k]) == Ok(EncodeStrings(b, x).value[k])
    ensures !b.isSlice && x.Scalar? ==>
      (EncodeStrings(b, x).Ok? <==> Encode(b.codec, x.n).Ok?) &&
      (Encode(b.codec, x.n) == Ok("") ==> EncodeStrings(b, x) == Ok([]))
    ensures (b.isSlice && !x.Items?) || (!b.isSlice && !x.Scalar?) ==> EncodeStrings(b, x) == Err(NotOfFieldShape)
  {
  }

  /** encodeField: read the slot at the binding's path and encode it. */
  function EncodeField(b: Binding, v: Val): Result<seq<string>, EncodeFailure> {
    match GetAt(v, b.path)
    case None => Err(NotOfFieldShape)
    case Some(x) => EncodeStrings(b, x)
  }

  /**
   * The Set loop for one binding from source `j` on: stop at the first
   * source that accepts, abort on an error, fail when none accepts.
   */
  function TrySources(accepts: (string, string) -> bool, fails: (string, string) -> bool,
                      b: Binding, vals: seq<string>, j: nat, st: DestState): (DestState, Outcome<EncodeError>)
    requires j <= |b.sources|
    decreases |b.sources| - j
  {
    if j == |b.sources| then (st, Fail(CannotSet(b.field.name, FirstSource(b))))
    else
      var (st1, ok, failed) := SetResult(accepts, fails, st, b.sources[j].source, b.sources[j].name, vals);
      if failed then (st1, Fail(SetFieldFailed(b.field.name, b.sources[j])))
      else if ok then (st1, Pass)
      else TrySources(accepts, fails, b, vals, j + 1, st1)
  }

  /** One binding: encode its slot, skip empty output, otherwise hand it to the destination. */
  function EncodeBinding(accepts: (string, string) -> bool, fails: (string, string) -> bool,
                         b: Binding, v: Val, st: DestState): (DestState, Outcome<EncodeError>)
  {
    match EncodeField(b, v)
    case Err(e) => (st, Fail(EncodeFieldFailed(b.field.name, FirstSource(b), e)))
    case Ok(vals) =>
      if |vals| == 0 then (st, Pass) else TrySources(accepts, fails, b, vals, 0, st)
  }

  /** A binding whose slot encodes to no strings makes no Set call and leaves the destination as it was. */
  lemma EmptyOutputNoSet(accepts: (string, string) -> bool, fails: (string, string) -> bool, b: Binding, v: Val, st: DestState)
    requires EncodeField(b, v) == Ok([])
    ensures EncodeBinding(accepts, fails, b, v, st) == (st, Pass)
  {
  }

  /** The field loop of Encode from binding `i` on. */
  function EncodeBindings(accepts: (string, string) -> bool, fails: (string, string) -> bool,
                          schema: Schema, i: nat, v: Val, st: DestState): (DestState, Outcome<EncodeError>)
    requires i <= |schema|
    decreases |schema| - i
  {
    if i == |schema| then (st, Pass)
    else
      var (st1, o) := EncodeBinding(accepts, fails, schema[i], v, st);
      if o.Fail? then (st1, o) else EncodeBindings(accepts, fails, schema, i + 1, v, st1)
  }

  /** Encode once the value's schema has been looked up. */
  function EncodeWith(accepts: (string, string) -> bool, fails: (string, string) -> bool,
                      schema: Result<Schema, ParseError>, v: Val, st: DestState): (DestState, Outcome<EncodeError>)
  {
    match schema
    case Err(e) => (st, Fail(SchemaFailed(e)))
    case Ok(s) => EncodeBindings(accepts, fails, s, 0, v, st)
  }

  /** The Go type and value behind an argument, a pointer being dereferenced. */
  function ArgType(v: Arg): Ty {
    if v.Pointer? then v.box.ty else v.ty
  }

  function ArgValue(v: Arg): Val
    reads v.Objects()
  {
    if v.Pointer? then v.box.value else v.value
  }

  /** The calls TrySources makes from source `j` to source `m`: the same values, to each pair in order. */
  function CallsTo(b: Binding, vals: seq<string>, j: nat, m: nat): (r: seq<SetCall>)
    requires j <= m <= |b.sources|
    ensures |r| == m - j
    ensures forall k :: 0 <= k < m - j ==> r[k] == SetCall(b.sources[j + k].source, b.sources[j + k].name, vals)
    decreases m - j
  {
    if j == m then [] else [SetCall(b.sources[j].source, b.sources[j].name, vals)] + CallsTo(b, vals, j + 1, m)
  }

  /** No source in `j..m` accepts or fails. */
  predicate AllDecline(accepts: (string, string) -> bool, fails: (string, string) -> bool, b: Binding, j: nat, m: nat)
    requires j <= m <= |b.sources|
  {
    forall k :: j <= k < m ==> !fails(b.sources[k].source, b.sources[k].name) && !accepts(b.sources[k].source, b.sources[k].name)
  }

  /**
   * Set is called on the sources in order up to and including the first
   * that accepts or fails, and on no later source; values are stored only
   * at an accepting source; an error aborts, and when every source
   * declines the binding fails.
   */
  lemma {:induction false} TrySourcesCalls(accepts: (string, string) -> bool, fails: (string, string) -> bool,
                                           b: Binding, vals: seq<string>, j: nat, m: nat, st: DestState)
    requires j <= m <= |b.sources|
    requires AllDecline(accepts, fails, b, j, m)
    ensures m == |b.sources| ==>
      TrySources(accepts, fails, b, vals, j, st) == (DestState(st.store, st.log + CallsTo(b, vals, j, m)), Fail(CannotSet(b.field.name, FirstSource(b))))
    ensures m < |b.sources| ==>
      var s := b.sources[m];
      var log := st.log + CallsTo(b, vals, j, m + 1);
      TrySources(accepts, fails, b, vals, j, st) ==
        if fails(s.source, s.name) then (DestState(st.store, log), Fail(SetFieldFailed(b.field.name, s)))
        else if accepts(s.source, s.name) then (DestState(st.store[(s.source, s.name) := vals], log), Pass)
        else TrySources(accepts, fails, b, vals, m + 1, DestState(st.store, log))
    decreases m - j
  {
    if j < m {
      var st1 := DestState(st.store, st.log + [SetCall(b.sources[j].source, b.sources[j].name, vals)]);
      assert TrySources(accepts, fails, b, vals, j, st) == TrySources(accepts, fails, b, vals, j + 1, st1);
      TrySourcesCalls(accepts, fails, b, vals, j + 1, m, st1);
      assert st1.log + CallsTo(b, vals, j + 1, m) == st.log + CallsTo(b, vals, j, m);
      if m < |b.sources| {
        assert st1.log + CallsTo(b, vals, j + 1, m + 1) == st.log + CallsTo(b, vals, j, m + 1);
      }
    } else if m < |b.sources| {
      assert CallsTo(b, vals, j, j + 1) == [SetCall(b.sources[j].source, b.sources[j].name, vals)];
    } else {
      assert st.log + CallsTo(b, vals, j, m) == st.log;
    }
  }

  /** The rest of Encode from source `j` of binding `i`, with `vals` the encoded strings of binding `i`. */
  function ResumeEncode(accepts: (string, string) -> bool, fails: (string, string) -> bool,
                        schema: Schema, i: nat, vals: seq<string>, j: nat, v: Val, st: DestState): (DestState, Outcome<EncodeError>)
    requires i < |schema| && j <= |schema[i].sources|
  {
    var (st1, o) := TrySources(accepts, fails, schema[i], vals, j, st);
    if o.Fail? then (st1, o) else EncodeBindings(accepts, fails, schema, i + 1, v, st1)
  }

  class Encoder {
    const parser: SchemaParser.Parser

    /** NewEncoder. */
    constructor (p: SchemaParser.Parser)
      ensures parser == p
    {
      parser := p;
    }

    method EncodeTypeToStrings(b: Binding, x: Val) returns (r: Result<seq<string>, EncodeFailure>)
      ensures r == EncodeStrings(b, x)
    {
      if b.isSlice {
        if !x.Items? {
          return Err(NotOfFieldShape);
        }
        var l := |x.ns|;
        if l == 0 {
          return Ok([]);
        }
        var vals: seq<string> := [];
        for k := 0 to l
          invariant EncodeEach(b.codec, x.ns[..k]) == Ok(vals)
        {
          assert x.ns[..k + 1][..k] == x.ns[..k];
          var s := Types.Encode(b.codec, x.ns[k]);
          if s.Err? {
            EncodeEachErrPropagates(b.codec, x.ns, k + 1);
            return Err(CodecFailed(s.error));
          }
          vals := vals + [s.value];
        }
        assert x.ns[..l] == x.ns;
        return Ok(vals);
      }
      if !x.Scalar? {
        return Err(NotOfFieldShape);
      }
      var s := Types.Encode(b.codec, x.n);
      if s.Err? {
        return Err(CodecFailed(s.error));
      }
      if s.value == "" {
        return Ok([]);
      }
      return Ok([s.value]);
    }

    method EncodeFieldOf(v: Val, b: Binding) returns (r: Result<seq<string>, EncodeFailure>)
      ensures r == EncodeField(b, v)
    {
      var fieldv := GetAt(v, b.path);
      if fieldv.None? {
        return Err(NotOfFieldShape);
      }
      r := EncodeTypeToStrings(b, fieldv.value);
    }

    /** The Set loop of Encode for one binding. */
    method SetSources(dst: Destination, b: Binding, vals: seq<string>) returns (r: Outcome<EncodeError>)
      modifies dst
      ensures (dst.State(), r) == TrySources(dst.accepts, dst.fails, b, vals, 0, old(dst.State()))
    {
      var ok := false;
      for j := 0 to |b.sources|
        invariant TrySources(dst.accepts, dst.fails, b, vals, j, dst.State()) == TrySources(dst.accepts, dst.fails, b, vals, 0, old(dst.State()))
      {
        var source := b.sources[j];
        var failed;
        ok, failed := dst.Set(source.source, source.name, vals);
        if failed {
          return Fail(SetFieldFailed(b.field.name, source));
        }
        if ok {
          return Pass;
        }
      }
      return Fail(CannotSet(b.field.name, FirstSource(b)));
    }

    method Encode(v: Arg, dst: Destination) returns (r: Outcome<EncodeError>)
      modifies parser`structures, dst
      ensures (dst.State(), r) == EncodeWith(dst.accepts, dst.fails, old(parser.SchemaOf(ArgType(v))), old(ArgValue(v)), old(dst.State()))
      ensures old(parser.CacheConsistent()) ==> parser.CacheConsistent()
    {
      var refv := if v.Pointer? then v.box.value else v.value;
      var reft := if v.Pointer? then v.box.ty else v.ty;
      var typInfo := parser.Parse(reft);
      if typInfo.Err? {
        return Fail(SchemaFailed(typInfo.error));
      }
      var fields := typInfo.value;
      ghost var cache := parser.structures;
      for i := 0 to |fields|
        invariant EncodeBindings(dst.accepts, dst.fails, fields, i, refv, dst.State())
          == EncodeBindings(dst.accepts, dst.fails, fields, 0, refv, old(dst.State()))
        invariant parser.structures == cache
      {
        var field := fields[i];
        var vals := EncodeFieldOf(refv, field);
        if vals.Err? {
          return Fail(EncodeFieldFailed(field.field.name, FirstSource(field), vals.error));
        }
        if |vals.value| == 0 {
          continue;
        }
        r := SetSources(dst, field, vals.value);
        if r.Fail? {
          return;
        }
      }
      return Pass;
    }
  }
}
