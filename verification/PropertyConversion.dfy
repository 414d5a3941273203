/** Values on their way between the event bus and a widget's properties. */
module PropertyConversion {
  import opened Common
  import opened UiModel

  // The bus carries unsigned numbers and floats where the configuration carries doubles, lists and maps,
  // so a value is coerced to the alternative its property was registered with, or dropped.

  /** A float by the four bytes of its pattern. */
  type Float32 = b: seq<Byte> | |b| == 4 witness [0, 0, 0, 0]

  datatype EventData =
    | IntData(i: Int32)
    | UintData(u: Uint32)
    | FloatData(f: Float32)
    | BoolData(b: bool)
    | TextData(t: Text)

  /** The casts of the machine that have a floating-point number on one side. */
  datatype Casts = Casts(
    intToDouble: Int32 -> Float64,
    uintToDouble: Uint32 -> Float64,
    widen: Float32 -> Float64,
    narrow: Float64 -> Float32,
    floatToInt: Float32 -> Int32,
    floatIsZero: Float32 -> bool)

  /** An unsigned number read as a signed one wraps round. */
  function Signed(u: Uint32): Int32 {
    if u < 0x8000_0000 then u else u - 0x1_0000_0000
  }

  /** c_str(): the text ends in front of its first zero byte. */
  function UpToZero(t: Text): (r: Text)
    ensures r <= t
    ensures 0 !in r && (|r| < |t| ==> t[|r|] == 0)
  {
    if t == [] || t[0] == 0 then [] else [t[0]] + UpToZero(t[1..])
  }

  // ---------------------------------------------------------------- the two conversions

  function AsInt(k: Casts, data: EventData): ConfigValue {
    match data
    case IntData(i) => IntValue(i)
    case UintData(u) => IntValue(Signed(u))
    case FloatData(f) => IntValue(k.floatToInt(f))
    case BoolData(b) => IntValue(if b then 1 else 0)
    case TextData(_) => Unset
  }

  function AsDouble(k: Casts, data: EventData): ConfigValue {
    match data
    case IntData(i) => DoubleValue(k.intToDouble(i))
    case UintData(u) => DoubleValue(k.uintToDouble(u))
    case FloatData(f) => DoubleValue(k.widen(f))
    case BoolData(b) => DoubleValue(k.intToDouble(if b then 1 else 0))
    case TextData(_) => Unset
  }

  function AsBool(k: Casts, data: EventData): ConfigValue {
    match data
    case IntData(i) => BoolValue(i != 0)
    case UintData(u) => BoolValue(u != 0)
    case FloatData(f) => BoolValue(!k.floatIsZero(f))
    case BoolData(b) => BoolValue(b)
    case TextData(_) => Unset
  }

  function CoerceToConfigValue(k: Casts, data: EventData, alternative: nat): ConfigValue {
    match alternative
    case 1 => AsInt(k, data)
    case 2 => AsDouble(k, data)
    case 3 => if data.TextData? then TextValue(UpToZero(data.t)) else Unset
    case 4 => AsBool(k, data)
    case _ => Unset
  }

  function ToEventData(k: Casts, v: ConfigValue): EventData {
    match v
    case IntValue(i) => IntData(i)
    case DoubleValue(d) => FloatData(k.narrow(d))
    case BoolValue(b) => BoolData(b)
    case TextValue(t) => TextData(UpToZero(t))
    case _ => IntData(0)
  }

  // ---------------------------------------------------------------- what they keep

  /** A value fills the property in its registered type or is dropped: texts fill texts, the rest the rest. */
  lemma CoercedIsDeclared(k: Casts, data: EventData, alternative: nat)
    ensures
      var v := CoerceToConfigValue(k, data, alternative);
      && (v != Unset ==> Alternative(v) == alternative)
      && (v != Unset <==> if data.TextData? then alternative == 3 else alternative in {1, 2, 4})
  {
    match alternative
    case 1 => assert AsInt(k, data).Unset? <==> data.TextData?;
    case 2 => assert AsDouble(k, data).Unset? <==> data.TextData?;
    case 4 => assert AsBool(k, data).Unset? <==> data.TextData?;
    case _ =>
  }

  /**
   What each kind of number becomes: an int and a flag are the same number, a flag 1 or 0; an unsigned
   number differs by 2^32 when an int cannot hold it; a flag is set by everything that is not zero.
   */
  lemma NumbersKeepTheirValue(k: Casts, i: Int32, u: Uint32, f: Float32, b: bool)
    ensures CoerceToConfigValue(k, IntData(i), 1) == IntValue(i)
    ensures CoerceToConfigValue(k, IntData(i), 2) == DoubleValue(k.intToDouble(i))
    ensures CoerceToConfigValue(k, IntData(i), 4) == BoolValue(i < 0 || i > 0)
    ensures CoerceToConfigValue(k, UintData(u), 1).IntValue?
    ensures CoerceToConfigValue(k, UintData(u), 1).i in {u, u - 0x1_0000_0000}
    ensures CoerceToConfigValue(k, UintData(u), 2) == DoubleValue(k.uintToDouble(u))
    ensures CoerceToConfigValue(k, UintData(u), 4) == BoolValue(u > 0)
    ensures CoerceToConfigValue(k, FloatData(f), 1) == IntValue(k.floatToInt(f))
    ensures CoerceToConfigValue(k, FloatData(f), 2) == DoubleValue(k.widen(f))
    ensures k.floatIsZero(f) <==> CoerceToConfigValue(k, FloatData(f), 4) == BoolValue(false)
    ensures CoerceToConfigValue(k, BoolData(true), 1) == IntValue(1)
    ensures CoerceToConfigValue(k, BoolData(false), 1) == IntValue(0)
    ensures CoerceToConfigValue(k, BoolData(b), 2) == CoerceToConfigValue(k, IntData(if b then 1 else 0), 2)
    ensures CoerceToConfigValue(k, BoolData(b), 4) == BoolValue(b)
  {
  }

  /** What the bus has no kind for goes out as the number zero. */
  lemma ZeroForTheRest(k: Casts, v: ConfigValue)
    requires v == Unset || v.IntListValue? || v.TextListValue? || v.TextMapValue?
    ensures ToEventData(k, v) == IntData(0)
  {
  }

  lemma {:induction false} UpToZeroIsAllIff(t: Text)
    ensures UpToZero(t) == t <==> 0 !in t
  {
    if t != [] && t[0] != 0 {
      UpToZeroIsAllIff(t[1..]);
    }
  }

  /** Widening loses nothing: a float that is widened and narrowed again is the same. */
  ghost predicate WidensExactly(k: Casts) {
    forall f: Float32 :: k.narrow(k.widen(f)) == f
  }

  /** The double is one that a float can hold. */
  ghost predicate FloatHolds(k: Casts, d: Float64) {
    exists f: Float32 :: d == k.widen(f)
  }

  /** What survives being published and then read by a property of the same type. */
  ghost predicate Survives(k: Casts, v: ConfigValue) {
    match v
    case DoubleValue(d) => FloatHolds(k, d)
    case TextValue(t) => 0 !in t
    case IntListValue(_) => false
    case TextListValue(_) => false
    case TextMapValue(_) => false
    case _ => true
  }

  /**
   A published value is read back unchanged exactly when it is a double that a float can hold, a text
   without a zero byte, an int or a bool; lists and maps never are.
   */
  lemma PublishedComesBackIff(k: Casts, v: ConfigValue)
    requires WidensExactly(k)
    ensures CoerceToConfigValue(k, ToEventData(k, v), Alternative(v)) == v <==> Survives(k, v)
  {
    if v.TextValue? {
      UpToZeroIsAllIff(v.t);
      UpToZeroIsAllIff(UpToZero(v.t));
    } else if v.DoubleValue? && FloatHolds(k, v.d) {
      var f: Float32 :| v.d == k.widen(f);
      assert k.narrow(k.widen(f)) == f;
    }
  }
}
