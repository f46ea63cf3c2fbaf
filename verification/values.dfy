/** The runtime values the converter reads and produces.

    One datatype covers both sides: the JSON-like tree handed to
    `deserialize` (None, bool, int, float, str, list, str-keyed dict) and the
    typed Python objects it builds (UUIDs, datetimes, enum members and
    dataclass instances). Serialization is shallow, so its output may still
    contain objects; a single datatype lets that be stated. */
module Values {
  import opened Results

  /** 2^128: a UUID is a 128-bit number (RFC 4122). */
  const UUID_BOUND: int := 0x1_0000_0000_0000_0000_0000_0000_0000_0000

  type U128 = n: int | 0 <= n < UUID_BOUND

  /** An IEEE double, kept opaque: only its bit pattern identifies it. */
  datatype Float = Float(bits: bv64)

  /** A `datetime.datetime`; `utcOffset` (in seconds) is present exactly
      when the instant is timezone-aware. */
  datatype Datetime = Datetime(
    year: int, month: int, day: int,
    hour: int, minute: int, second: int, microsecond: int,
    utcOffset: Option<int>)

  datatype Val =
    | VNone
    | VBool(b: bool)
    | VInt(i: int)
    | VFloat(f: Float)
    | VStr(s: string)
    | VList(items: seq<Val>)
      /** A dict in insertion order. */
    | VDict(entries: seq<(string, Val)>)
    | VUuid(u: U128)
    | VDatetime(d: Datetime)
      /** A member of the enum class `enumName`. */
    | VMember(enumName: string, member: string, value: Val)
      /** An instance of the dataclass `cls`, fields in declaration order. */
    | VRecord(cls: string, fields: seq<(string, Val)>)
      /** Any other object, such as a function or a class, known only by
          its identity. */
    | VObject(id: string)
  {
    /** `isinstance(v, (int, float, bool))`. */
    predicate IsNumeric() {
      VInt? || VFloat? || VBool?
    }

    /** Whether `hash(v)` succeeds: lists, dicts and (eq-generated)
        dataclass instances are unhashable. */
    predicate Hashable() {
      !(VList? || VDict? || VRecord?)
    }
  }

  /** Python's `int(b)` for a bool. */
  function BoolAsInt(b: bool): int {
    if b then 1 else 0
  }

  /** Python's `a == b`: structural, except that `True` and `False` equal
      `1` and `0` at any depth, dicts are equal when they hold equal values
      under the same keys whatever the insertion order, and dataclass
      instances of one class compare field by field. */
  predicate PyEq(a: Val, b: Val)
    decreases a
  {
    || a == b
    || match a
       case VBool(x) => b.VInt? && BoolAsInt(x) == b.i
       case VInt(x) => b.VBool? && x == BoolAsInt(b.b)
       case VList(xs) =>
         && b.VList? && |xs| == |b.items|
         && forall i :: 0 <= i < |xs| ==> PyEq(xs[i], b.items[i])
       case VDict(es) =>
         && b.VDict?
         && (forall i :: 0 <= i < |es| ==>
               exists j :: 0 <= j < |b.entries| && es[i].0 == b.entries[j].0 && PyEq(es[i].1, b.entries[j].1))
         && (forall j :: 0 <= j < |b.entries| ==>
               exists i :: 0 <= i < |es| && es[i].0 == b.entries[j].0 && PyEq(es[i].1, b.entries[j].1))
       case VRecord(c, fs) =>
         && b.VRecord? && b.cls == c && |fs| == |b.fields|
         && forall i :: 0 <= i < |fs| ==> PyEq(fs[i].1, b.fields[i].1)
       case _ => false
  }

  /** The values `json.dumps` accepts: no UUIDs, datetimes, enum members or
      dataclass instances anywhere inside. */
  predicate IsJson(v: Val) {
    match v
    case VNone => true
    case VBool(_) => true
    case VInt(_) => true
    case VFloat(_) => true
    case VStr(_) => true
    case VList(xs) => forall i :: 0 <= i < |xs| ==> IsJson(xs[i])
    case VDict(es) => forall i :: 0 <= i < |es| ==> IsJson(es[i].1)
    case _ => false
  }
}
