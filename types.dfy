/**
 * The codecs of the library: a codec names the Go type it handles and
 * converts between that type's values and strings. The builtin codecs
 * cover bool, the ten integer types and string; integers use base-10
 * text with the range checks of Go's strconv.ParseInt / ParseUint.
 */
module Types {
  import opened Wrappers
  import opened Reflection

  /** The two ways a codec call fails: bad text to decode, or a value of the wrong type to encode. */
  datatype CodecError = InvalidValue | InvalidDataType

  /**
   * A codec (the `Type` interface). `Custom` stands for any user codec,
   * such as the float codecs or a date codec: only its data type and its
   * two conversions matter here.
   */
  datatype Codec =
    | BoolCodec
    | IntCodec(kind: IntKind)
    | StringCodec
    | Custom(dataType: Ty, dec: string -> Result<Native, CodecError>, enc: Native -> Result<string, CodecError>)

  predicate IsBuiltin(c: Codec) {
    !c.Custom?
  }

  /** The Go type of the value `DataType()` returns. */
  function DataType(c: Codec): Ty {
    match c
    case BoolCodec => Basic("bool")
    case IntCodec(k) => Basic(k.TypeName())
    case StringCodec => Basic("string")
    case Custom(t, _, _) => t
  }

  function Decode(c: Codec, s: string): Result<Native, CodecError> {
    match c
    case BoolCodec =>
      (match ParseBool(s) case Ok(b) => Ok(BoolV(b)) case Err(e) => Err(e))
    case IntCodec(k) =>
      var r := if k.IsSigned() then ParseInt(s, k.Bits()) else ParseUint(s, k.Bits());
      (match r case Ok(i) => Ok(IntV(k, i)) case Err(e) => Err(e))
    case StringCodec => Ok(StrV(s))
    case Custom(_, dec, _) => dec(s)
  }

  function Encode(c: Codec, n: Native): Result<string, CodecError> {
    match c
    case BoolCodec => if n.BoolV? then Ok(FormatBool(n.b)) else Err(InvalidDataType)
    case IntCodec(k) => if n.IntV? && n.kind == k then Ok(FormatInt(n.i)) else Err(InvalidDataType)
    case StringCodec => if n.StrV? then Ok(n.s) else Err(InvalidDataType)
    case Custom(_, _, enc) => enc(n)
  }

  /**
   * The codecs BuiltinTypes returns, in its order. The float codecs are
   * passed in: the model knows only their data types.
   */
  function BuiltinTypes(float32Codec: Codec, float64Codec: Codec): (r: seq<Codec>)
    requires DataType(float32Codec) == Basic("float32") && DataType(float64Codec) == Basic("float64")
    ensures |r| == 14
    ensures forall a, b :: 0 <= a < b < |r| ==> DataType(r[a]) != DataType(r[b])
  {
    [BoolCodec,
     IntCodec(Int), IntCodec(Int8), IntCodec(Int16), IntCodec(Int32), IntCodec(Int64),
     IntCodec(Uint), IntCodec(Uint8), IntCodec(Uint16), IntCodec(Uint32), IntCodec(Uint64),
     float32Codec, float64Codec,
     StringCodec]
  }

  // ---- strconv, as far as the codecs use it ----

  /** The literals strconv.ParseBool accepts. */
  function ParseBool(s: string): Result<bool, CodecError> {
    if s in ["1", "t", "T", "TRUE", "true", "True"] then Ok(true)
    else if s in ["0", "f", "F", "FALSE", "false", "False"] then Ok(false)
    else Err(InvalidValue)
  }

  function FormatBool(b: bool): string {
    if b then "true" else "false"
  }

  predicate IsDigit(c: char) {
    '0' <= c <= '9'
  }

  predicate AllDigits(s: string) {
    forall k :: 0 <= k < |s| ==> IsDigit(s[k])
  }

  /** The number a string of decimal digits denotes (leading zeros allowed). */
  function DigitsValue(s: string): nat
    requires AllDigits(s)
  {
    if s == [] then 0
    else DigitsValue(s[..|s| - 1]) * 10 + (s[|s| - 1] as int - '0' as int)
  }

  function Digit(d: nat): char
    requires d < 10
  {
    ('0' as int + d) as char
  }

  /** Shortest base-10 text of a natural number. */
  function FormatDecimal(n: nat): string
    decreases n
  {
    if n < 10 then [Digit(n)] else FormatDecimal(n / 10) + [Digit(n % 10)]
  }

  /** strconv.FormatInt(i, 10) (and FormatUint for non-negative values). */
  function FormatInt(i: int): string {
    if i < 0 then "-" + FormatDecimal(-i) else FormatDecimal(i)
  }

  /** strconv.ParseUint(s, 10, bits): digits only, value below 2^bits. */
  function ParseUint(s: string, bits: nat): Result<int, CodecError> {
    if s == [] || !AllDigits(s) then Err(InvalidValue)
    else if DigitsValue(s) >= Pow2(bits) then Err(InvalidValue)
    else Ok(DigitsValue(s))
  }

  /**
   * strconv.ParseInt(s, 10, bits): an optional sign, then the unsigned
   * magnitude, which must not exceed 2^(bits-1) when negative and must
   * stay below it otherwise.
   */
  function ParseInt(s: string, bits: nat): Result<int, CodecError>
    requires bits >= 1
  {
    if s == [] then Err(InvalidValue)
    else
      var neg := s[0] == '-';
      var mag := if s[0] == '+' || s[0] == '-' then s[1..] else s;
      if mag == [] || !AllDigits(mag) then Err(InvalidValue)
      else
        var un := DigitsValue(mag);
        var cutoff := Pow2(bits - 1);
        if !neg && un >= cutoff then Err(InvalidValue)
        else if neg && un > cutoff then Err(InvalidValue)
        else Ok(if neg then -(un as int) else un)
  }

  // ---- an independent description of decimal literals ----

  /** A base-10 integer literal: an optional '+' or '-', then at least one digit. */
  predicate IsDecimalLiteral(s: string) {
    |s| >= 1 &&
    if s[0] == '+' || s[0] == '-' then |s| >= 2 && AllDigits(s[1..]) else AllDigits(s)
  }

  /** The integer a decimal literal denotes. */
  function LiteralValue(s: string): int
    requires IsDecimalLiteral(s)
  {
    if s[0] == '-' then -(DigitsValue(s[1..]) as int)
    else if s[0] == '+' then DigitsValue(s[1..])
    else DigitsValue(s)
  }

  lemma {:induction false} FormatDecimalDigits(n: nat)
    ensures |FormatDecimal(n)| >= 1 && AllDigits(FormatDecimal(n))
    ensures DigitsValue(FormatDecimal(n)) == n
    decreases n
  {
    var s := FormatDecimal(n);
    if n >= 10 {
      FormatDecimalDigits(n / 10);
      assert s[..|s| - 1] == FormatDecimal(n / 10);
    }
  }

  /** FormatInt writes a literal with no '+' sign whose value is the number formatted. */
  lemma FormatIntLiteral(i: int)
    ensures IsDecimalLiteral(FormatInt(i)) && LiteralValue(FormatInt(i)) == i
    ensures FormatInt(i)[0] != '+'
    ensures FormatInt(i)[0] == '-' <==> i < 0
  {
    var s := FormatInt(i);
    if i < 0 {
      FormatDecimalDigits(-i);
      assert s[1..] == FormatDecimal(-i);
    } else {
      FormatDecimalDigits(i);
    }
  }

  /**
   * A signed N-bit codec decodes exactly the decimal literals whose value
   * lies in [-2^(N-1), 2^(N-1)-1], to that value.
   */
  lemma SignedDecodeRange(k: IntKind, s: string)
    requires k.IsSigned()
    ensures Decode(IntCodec(k), s).Ok? <==> IsDecimalLiteral(s) && k.Min() <= LiteralValue(s) <= k.Max()
    ensures Decode(IntCodec(k), s).Ok? ==> Decode(IntCodec(k), s).value == IntV(k, LiteralValue(s))
  {
    ParseIntLiteral(s, k.Bits());
  }

  lemma ParseIntLiteral(s: string, bits: nat)
    requires bits >= 1
    ensures ParseInt(s, bits).Ok? <==> IsDecimalLiteral(s) && -(Pow2(bits - 1) as int) <= LiteralValue(s) < Pow2(bits - 1)
    ensures ParseInt(s, bits).Ok? ==> ParseInt(s, bits).value == LiteralValue(s)
  {
    if s != [] {
      var mag := if s[0] == '+' || s[0] == '-' then s[1..] else s;
      if mag != [] && AllDigits(mag) {
        assert IsDecimalLiteral(s);
        assert LiteralValue(s) == if s[0] == '-' then -(DigitsValue(mag) as int) else DigitsValue(mag);
      } else {
        assert !IsDecimalLiteral(s);
      }
    }
  }

  /**
   * An unsigned N-bit codec decodes exactly the unsigned digit strings
   * whose value is below 2^N: a sign of either kind is rejected.
   */
  lemma UnsignedDecodeRange(k: IntKind, s: string)
    requires !k.IsSigned()
    ensures Decode(IntCodec(k), s).Ok? <==> |s| >= 1 && AllDigits(s) && DigitsValue(s) <= k.Max()
    ensures Decode(IntCodec(k), s).Ok? ==> Decode(IntCodec(k), s).value == IntV(k, DigitsValue(s))
    ensures |s| >= 1 && s[0] == '-' ==> Decode(IntCodec(k), s).Err?
  {
  }

  /** Every in-range integer survives Encode then Decode; the text is base 10. */
  lemma IntRoundTrip(k: IntKind, i: int)
    requires k.Min() <= i <= k.Max()
    ensures Encode(IntCodec(k), IntV(k, i)) == Ok(FormatInt(i))
    ensures Decode(IntCodec(k), FormatInt(i)) == Ok(IntV(k, i))
  {
    FormatIntLiteral(i);
    if k.IsSigned() { SignedDecodeRange(k, FormatInt(i)); } else { UnsignedDecodeRange(k, FormatInt(i)); }
  }

  /** Bool encodes to "true" / "false", and decoding that gives the same bool back. */
  lemma BoolRoundTrip(b: bool)
    ensures Encode(BoolCodec, BoolV(b)) == Ok(if b then "true" else "false")
    ensures Decode(BoolCodec, Encode(BoolCodec, BoolV(b)).value) == Ok(BoolV(b))
  {
  }

  /** The string codec passes its text through unchanged both ways. */
  lemma StringIdentity(s: string)
    ensures Decode(StringCodec, s) == Ok(StrV(s))
    ensures Encode(StringCodec, StrV(s)) == Ok(s)
  {
  }

  /** The Go types the builtin codecs handle. */
  predicate IsBuiltinTy(t: Ty) {
    t.Basic? && t.name in {"bool", "string", "int", "int8", "int16", "int32", "int64",
                           "uint", "uint8", "uint16", "uint32", "uint64"}
  }

  /**
   * A value of a builtin type is represented by its own constructor, not
   * by `OtherV`; and integers are in range.
   */
  predicate Proper(n: Native) {
    WellFormed(n) && (n.OtherV? ==> !IsBuiltinTy(n.ty))
  }

  /** A builtin codec decodes to a proper value of its own data type. */
  lemma DecodeGivesDataType(c: Codec, s: string)
    requires IsBuiltin(c)
    ensures Decode(c, s).Ok? ==> NativeTy(Decode(c, s).value) == DataType(c) && Proper(Decode(c, s).value)
  {
    if c.IntCodec? {
      if c.kind.IsSigned() { SignedDecodeRange(c.kind, s); } else { UnsignedDecodeRange(c.kind, s); }
    }
  }

  /** The length and last character of a type name, which tell the builtin type names apart. */
  function NameSig(s: string): (nat, char) {
    if s == [] then (0, ' ') else (|s|, s[|s| - 1])
  }

  /** The signature of each integer type's name. */
  lemma KindNameSig(k: IntKind)
    ensures NameSig(k.TypeName()) ==
      match k
      case Int => (3, 't') case Int8 => (4, '8') case Int16 => (5, '6') case Int32 => (5, '2') case Int64 => (5, '4')
      case Uint => (4, 't') case Uint8 => (5, '8') case Uint16 => (6, '6') case Uint32 => (6, '2') case Uint64 => (6, '4')
    ensures IsBuiltinTy(Basic(k.TypeName()))
  {
  }

  /** Distinct integer types have distinct names, and none is named bool or string. */
  lemma TypeNameInjective(a: IntKind, b: IntKind)
    ensures a.TypeName() == b.TypeName() <==> a == b
    ensures a.TypeName() != "bool" && a.TypeName() != "string"
  {
    KindNameSig(a);
    KindNameSig(b);
    assert NameSig("bool") == (4, 'l') && NameSig("string") == (6, 'g');
  }

  /** A builtin codec encodes a value exactly when the value has the codec's data type. */
  lemma EncodeChecksType(c: Codec, n: Native)
    requires IsBuiltin(c) && Proper(n)
    ensures Encode(c, n).Ok? <==> NativeTy(n) == DataType(c)
  {
    assert "bool" != "string" by { assert |"bool"| != |"string"|; }
    assert IsBuiltinTy(Basic("bool")) && IsBuiltinTy(Basic("string"));
    if n.IntV? {
      TypeNameInjective(n.kind, n.kind);
      if c.IntCodec? { TypeNameInjective(n.kind, c.kind); }
    }
    if c.IntCodec? {
      TypeNameInjective(c.kind, c.kind);
      KindNameSig(c.kind);
    }
  }
}
