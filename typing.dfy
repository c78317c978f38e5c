/**
 * Values of Go types, relative to a codec registry, and what a derived
 * schema's bindings find in such values: the slot at each binding's path
 * exists and holds a value its codec handles.
 */
module Typing {
  import opened Wrappers
  import opened Reflection
  import opened Types
  import opened Schema
  import opened SchemaFacts
  import Decoding
  import Encoding

  /**
   * `v` is a value of type `t`: a registered type holds a proper scalar of
   * that type, a struct one value per field, a slice of a registered type
   * its elements; other values are not looked into.
   */
  ghost predicate Typed(reg: map<Ty, Codec>, v: Val, t: Ty)
    decreases t
  {
    if t in reg then v.Scalar? && NativeTy(v.n) == t && Proper(v.n)
    else match t
      case Slice(e) =>
        e in reg ==> v.Items? && forall k :: 0 <= k < |v.ns| ==> NativeTy(v.ns[k]) == e && Proper(v.ns[k])
      case Struct(_, fs) =>
        v.Record? && |v.fields| == |fs| && forall k :: 0 <= k < |fs| ==> Typed(reg, v.fields[k], fs[k].ty)
      case Basic(_) => true
  }

  /** A codec whose Decode inverts its Encode on every proper value of its data type. */
  ghost predicate Lawful(c: Codec) {
    forall n :: Proper(n) && NativeTy(n) == DataType(c) ==> Encode(c, n).Ok? && Decode(c, Encode(c, n).value) == Ok(n)
  }

  ghost predicate AllLawful(reg: map<Ty, Codec>) {
    forall t :: t in reg ==> Lawful(reg[t])
  }

  /** Every builtin codec is lawful. */
  lemma BuiltinLawful(c: Codec)
    requires IsBuiltin(c)
    ensures Lawful(c)
  {
    forall n | Proper(n) && NativeTy(n) == DataType(c)
      ensures Encode(c, n).Ok? && Decode(c, Encode(c, n).value) == Ok(n)
    {
      EncodeChecksType(c, n);
      match c
      case IntCodec(k) =>
        IntRoundTrip(k, n.i);
      case BoolCodec =>
        BoolRoundTrip(n.b);
      case StringCodec =>
        StringIdentity(n.s);
    }
  }

  /** A registry of builtin codecs only is lawful. */
  lemma BuiltinRegistryLawful(reg: map<Ty, Codec>)
    requires forall t :: t in reg ==> IsBuiltin(reg[t])
    ensures AllLawful(reg)
  {
    forall t | t in reg ensures Lawful(reg[t]) {
      BuiltinLawful(reg[t]);
    }
  }

  /** Following a path the walk descends along leads through struct values of the right types. */
  lemma {:induction false} TypedPlace(cfg: Config, root: Ty, P: seq<nat>, v: Val, p: Place)
    requires root.Struct? && root !in cfg.reg && Typed(cfg.reg, v, root)
    requires Descend(cfg, root, P) == Some(p)
    ensures p.ty.Struct? && p.ty !in cfg.reg
    ensures GetAt(v, P).Some? && Typed(cfg.reg, GetAt(v, P).value, p.ty)
    decreases |P|
  {
    if P != [] {
      var P0 := P[..|P| - 1];
      var i := P[|P| - 1];
      var p0 := Descend(cfg, root, P0).value;
      TypedPlace(cfg, root, P0, v, p0);
      var x0 := GetAt(v, P0).value;
      assert i < |p0.ty.fields|;
      var f := p0.ty.fields[i];
      assert Lookup(cfg.reg, f.ty).None? && f.ty.Struct?;
      assert x0.Record? && |x0.fields| == |p0.ty.fields| && Typed(cfg.reg, x0.fields[i], f.ty);
      assert P == P0 + [i];
      GetAtExtend(v, P0, i);
      assert GetAt(v, P) == Some(x0.fields[i]);
    }
  }

  /** The slot of every binding of a sound schema exists in a value of the root type and is typed. */
  lemma BoundSlot(cfg: Config, root: Ty, b: Binding, v: Val)
    requires root.Struct? && root !in cfg.reg && Typed(cfg.reg, v, root)
    requires BindingOk(cfg, root, b)
    ensures GetAt(v, b.path).Some? && Typed(cfg.reg, GetAt(v, b.path).value, b.field.ty)
  {
    var P := b.path[..|b.path| - 1];
    var i := b.path[|b.path| - 1];
    var p := Descend(cfg, root, P).value;
    assert i < |p.ty.fields| && b.field == p.ty.fields[i];
    TypedPlace(cfg, root, P, v, p);
    var x0 := GetAt(v, P).value;
    assert x0.Record? && |x0.fields| == |p.ty.fields| && Typed(cfg.reg, x0.fields[i], b.field.ty);
    assert b.path == P + [i];
    GetAtExtend(v, P, i);
    assert GetAt(v, b.path) == Some(x0.fields[i]);
  }

  lemma DecodeEachInverts(c: Codec, ns: seq<Native>, ss: seq<string>)
    requires |ss| == |ns| && forall k :: 0 <= k < |ns| ==> Decode(c, ss[k]) == Ok(ns[k])
    ensures Decoding.DecodeEach(c, ss) == Ok(ns)
  {
    var r := Decoding.DecodeEach(c, ss);
    assert r.Ok?;
    forall k | 0 <= k < |ns| ensures r.value[k] == ns[k] {
      assert Decode(c, ss[k]) == Ok(r.value[k]);
    }
    assert r.value == ns;
  }

  /**
   * A typed slot of a binding with a lawful codec encodes without error,
   * and when the encoding is not empty, decoding it gives the slot back.
   */
  lemma FieldRoundTrip(reg: map<Ty, Codec>, b: Binding, x: Val)
    requires RegistryConsistent(reg) && Lookup(reg, b.field.ty) == Some((b.isSlice, b.codec)) && Lawful(b.codec)
    requires Typed(reg, x, b.field.ty)
    ensures Encoding.EncodeStrings(b, x).Ok?
    ensures |Encoding.EncodeStrings(b, x).value| > 0 ==>
      Decoding.DecodeStrings(b, Encoding.EncodeStrings(b, x).value) == Ok(Some(x)) && Decoding.HasType(x, b.field.ty)
  {
    LookupKinds(reg, b.field.ty);
    if b.isSlice {
      var ns := x.ns;
      forall k | 0 <= k < |ns| ensures Encode(b.codec, ns[k]).Ok? && Decode(b.codec, Encode(b.codec, ns[k]).value) == Ok(ns[k]) {
      }
      if |ns| > 0 {
        var ss := Encoding.EncodeEach(b.codec, ns).value;
        DecodeEachInverts(b.codec, ns, ss);
      }
    }
  }
}
