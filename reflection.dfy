/**
 * A model of the part of Go's reflection the binding engine uses: struct
 * type descriptors with tagged fields, scalar values, and values addressed
 * by an index path (reflect's FieldByIndex).
 */
module Reflection {
  import opened Wrappers

  /**
   * A Go type as far as the parser can tell types apart: a type that is
   * neither a slice nor a struct (bool, int8, a map, a pointer, ...) is
   * known by its name only.
   */
  datatype Ty =
    | Basic(name: string)
    | Slice(elem: Ty)
    | Struct(name: string, fields: seq<Field>)

  /** One declared struct field: its name, type, tag and whether it is embedded. */
  datatype Field = Field(name: string, ty: Ty, tag: map<string, string>, anonymous: bool)

  /** reflect.StructTag.Get: the value stored under `key`, or "" when there is none. */
  function TagGet(tag: map<string, string>, key: string): string {
    if key in tag then tag[key] else ""
  }

  /** A size that strictly decreases from a struct type to the types of its fields. */
  function Size(t: Ty): nat
    decreases t
  {
    match t
    case Basic(_) => 1
    case Slice(e) => 1 + Size(e)
    case Struct(_, fs) => 1 + FieldsSize(fs)
  }

  function FieldsSize(fs: seq<Field>): nat
    decreases fs
  {
    if fs == [] then 0 else Size(fs[0].ty) + FieldsSize(fs[1..])
  }

  /** The integer types of Go that the builtin codecs handle; `int` and `uint` are 64 bits wide. */
  datatype IntKind = Int | Int8 | Int16 | Int32 | Int64 | Uint | Uint8 | Uint16 | Uint32 | Uint64 {
    function Bits(): (n: nat)
      ensures n in {8, 16, 32, 64}
    {
      match this
      case Int => 64 case Int8 => 8 case Int16 => 16 case Int32 => 32 case Int64 => 64
      case Uint => 64 case Uint8 => 8 case Uint16 => 16 case Uint32 => 32 case Uint64 => 64
    }

    predicate IsSigned() {
      Int? || Int8? || Int16? || Int32? || Int64?
    }

    function TypeName(): string {
      match this
      case Int => "int" case Int8 => "int8" case Int16 => "int16" case Int32 => "int32" case Int64 => "int64"
      case Uint => "uint" case Uint8 => "uint8" case Uint16 => "uint16" case Uint32 => "uint32" case Uint64 => "uint64"
    }

    /** The smallest value of the type: -2^(N-1) when signed, 0 when unsigned. */
    function Min(): int {
      if IsSigned() then -(Pow2(Bits() - 1) as int) else 0
    }

    /** The largest value of the type: 2^(N-1)-1 when signed, 2^N-1 when unsigned. */
    function Max(): int {
      if IsSigned() then Pow2(Bits() - 1) - 1 else Pow2(Bits()) - 1
    }
  }

  function Pow2(n: nat): (r: nat)
    ensures r >= 1
  {
    if n == 0 then 1 else 2 * Pow2(n - 1)
  }

  /** A Go scalar value as it crosses the codec boundary (an `interface{}` holding it). */
  datatype Native =
    | BoolV(b: bool)
    | IntV(kind: IntKind, i: int)
    | StrV(s: string)
    | OtherV(ty: Ty, payload: string)   // a value of a type handled by a user codec

  /** The dynamic type of a native value. */
  function NativeTy(n: Native): Ty {
    match n
    case BoolV(_) => Basic("bool")
    case IntV(k, _) => Basic(k.TypeName())
    case StrV(_) => Basic("string")
    case OtherV(t, _) => t
  }

  /** Go's integer values always lie within their type's range. */
  predicate WellFormed(n: Native) {
    n.IntV? ==> n.kind.Min() <= n.i <= n.kind.Max()
  }

  /**
   * A runtime value: a scalar of a codec type, a slice of such scalars,
   * a struct value with one value per field, or anything else.
   */
  datatype Val =
    | Scalar(n: Native)
    | Items(ns: seq<Native>)
    | Record(fields: seq<Val>)
    | Opaque

  /** reflect's FieldByIndex: follow an index path through nested struct values. */
  function GetAt(v: Val, path: seq<nat>): Option<Val>
    decreases |path|
  {
    if path == [] then Some(v)
    else match v
      case Record(fs) => if path[0] < |fs| then GetAt(fs[path[0]], path[1..]) else None
      case _ => None
  }

  /** Write `x` into the slot at `path` (FieldByIndex(path).Set(x)); no slot, no change. */
  function SetAt(v: Val, path: seq<nat>, x: Val): Val
    decreases |path|
  {
    if path == [] then x
    else match v
      case Record(fs) =>
        if path[0] < |fs| then Record(fs[path[0] := SetAt(fs[path[0]], path[1..], x)]) else v
      case _ => v
  }

  predicate IsPrefix(p: seq<nat>, q: seq<nat>) {
    |p| <= |q| && q[..|p|] == p
  }

  /** Two index paths address disjoint slots: neither is a prefix of the other. */
  predicate Independent(p: seq<nat>, q: seq<nat>) {
    !IsPrefix(p, q) && !IsPrefix(q, p)
  }

  /** Writing a slot that exists makes it read back as the value written. */
  lemma {:induction false} GetAfterSet(v: Val, path: seq<nat>, x: Val)
    requires GetAt(v, path).Some?
    ensures GetAt(SetAt(v, path, x), path) == Some(x)
    decreases |path|
  {
    if path != [] {
      GetAfterSet(v.fields[path[0]], path[1..], x);
    }
  }

  lemma PrefixCons(x: nat, a: seq<nat>, b: seq<nat>)
    ensures IsPrefix([x] + a, [x] + b) <==> IsPrefix(a, b)
  {
    if |a| <= |b| {
      assert ([x] + b)[..|[x] + a|] == [x] + b[..|a|];
    }
    if IsPrefix([x] + a, [x] + b) {
      assert a == ([x] + a)[1..];
      assert b[..|a|] == ([x] + b)[..|[x] + a|][1..];
    }
  }

  /** Writing one slot leaves every independent slot as it was. */
  lemma {:induction false} GetAfterSetElsewhere(v: Val, p: seq<nat>, q: seq<nat>, x: Val)
    requires Independent(p, q)
    ensures GetAt(SetAt(v, p, x), q) == GetAt(v, q)
    decreases |p|
  {
    assert p != [] && q != [];
    match v
    case Record(fs) =>
      if p[0] < |fs| && p[0] == q[0] {
        assert p[1..] != [] && q[1..] != [];
        assert Independent(p[1..], q[1..]) by {
          assert p == [p[0]] + p[1..];
          assert q == [q[0]] + q[1..];
          PrefixCons(p[0], p[1..], q[1..]);
          PrefixCons(p[0], q[1..], p[1..]);
        }
        GetAfterSetElsewhere(fs[p[0]], p[1..], q[1..], x);
      }
    case _ =>
  }

  /** Writing a slot keeps every slot independent of it readable. */
  lemma SetKeepsSlot(v: Val, p: seq<nat>, q: seq<nat>, x: Val)
    requires Independent(p, q) && GetAt(v, q).Some?
    ensures GetAt(SetAt(v, p, x), q).Some?
  {
    GetAfterSetElsewhere(v, p, q, x);
  }

  /** Reading `p + [i]` reads field `i` of the struct value found at `p`. */
  lemma {:induction false} GetAtExtend(v: Val, p: seq<nat>, i: nat)
    ensures GetAt(v, p + [i]) ==
      match GetAt(v, p)
      case Some(Record(fs)) => if i < |fs| then Some(fs[i]) else None
      case _ => None
    decreases |p|
  {
    if p == [] {
      assert [i][1..] == [];
    } else {
      assert (p + [i])[1..] == p[1..] + [i];
      if v.Record? && p[0] < |v.fields| {
        GetAtExtend(v.fields[p[0]], p[1..], i);
      }
    }
  }

  /** A pointer to a variable of type `ty` (the target of Decode, or an argument of Encode). */
  class Box {
    const ty: Ty
    var value: Val

    constructor (ty: Ty, value: Val)
      ensures this.ty == ty && this.value == value
    {
      this.ty := ty;
      this.value := value;
    }
  }

  /** An `interface{}` argument: a pointer, or a value passed directly. */
  datatype Arg = Pointer(box: Box) | Plain(ty: Ty, value: Val) {
    function Objects(): set<object> {
      if Pointer? then {box} else {}
    }
  }
}
