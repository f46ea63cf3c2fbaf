/** `deserialize(serialize(x), target_type=T) == x`, and when
    `serialize(x)` is plain JSON.

    `serialize` re-encodes only a dataclass's top-level field values, so a
    field type that round-trips at the top level (a UUID, a datetime) may
    not round-trip once nested in another dataclass or a list. The
    predicates below carry that position as `top`. */
module RoundTrip {
  import opened Results
  import opened Values
  import opened Types
  import opened Hosts
  import opened Runtime
  import opened Deserializer
  import opened Serializer
  import opened CollectionFacts
  import opened RecordFacts
  import Uuid

  /** `v` is an instance of `ty`. Primitive fields hold exactly their own
      kind (no bool in an `int` field). */
  ghost predicate HasType(v: Val, ty: Ty)
    decreases ty
  {
    match ty
    case TPrim(p) => OfKind(v, p)
    case TNone => v == VNone
    case TUuid => v.VUuid?
    case TDatetime => v.VDatetime?
    case TEnum(n, ms, _) => exists i :: 0 <= i < |ms| && v == MemberVal(n, ms[i])
    case TList(e) => v.VList? && forall i :: 0 <= i < |v.items| ==> HasType(v.items[i], e)
    case TRecord(n, fs) =>
      && v.VRecord? && v.cls == n && |v.fields| == |fs|
      && forall i :: 0 <= i < |fs| ==> v.fields[i].0 == fs[i].name && HasType(v.fields[i].1, fs[i].ty)
    case TUnion(cs) => exists i :: 0 <= i < |cs| && HasType(v, cs[i])
  }

  /** An enum value that `serialize` leaves as it is and that is not `None`. */
  predicate IsScalar(v: Val) {
    v.VBool? || v.VInt? || v.VFloat? || v.VStr?
  }

  /** Member values are scalars and pairwise unequal, so no member is an
      alias of another. */
  predicate WellFormedEnum(ms: seq<Member>) {
    && (forall i :: 0 <= i < |ms| ==> IsScalar(ms[i].value))
    && (forall i, j :: 0 <= i < j < |ms| ==> !PyEq(ms[i].value, ms[j].value))
  }

  /** Field types whose values survive `serialize` then `deserialize`, at
      the top level of a dataclass (`top`) or nested deeper: primitives,
      optionals, lists, enums and dataclasses of such fields, and UUIDs and
      datetimes at the top level or inside an optional. */
  ghost predicate RoundTrips(ty: Ty, top: bool)
    decreases ty
  {
    match ty
    case TPrim(_) => true
    case TNone => false
    case TUuid => top
    case TDatetime => top
    case TEnum(_, ms, _) => WellFormedEnum(ms)
    case TList(e) => RoundTrips(e, false)
    case TRecord(_, fs) => DistinctNames(fs) && forall i :: 0 <= i < |fs| ==> RoundTrips(fs[i].ty, false)
    case TUnion(cs) =>
      && |cs| == 2
      && exists k :: 0 <= k < 2 && cs[1 - k] == TNone && cs[k] != TNone
           && (cs[k].TPrim? || cs[k].TUuid? || cs[k].TDatetime?
               || ((cs[k].TEnum? || cs[k].TRecord?) && RoundTrips(cs[k], top)))
  }

  /** What a field value of a dataclass becomes in `serialize`'s output:
      at the top level `serialize(asdict(...))`, deeper just `asdict`. */
  function Emit(h: Host, v: Val, top: bool): Val {
    if top then SerializeField(h, v) else AsDict(v)
  }

  /** A dict whose entries line up with the fields converts to the instance
      holding the converted values. */
  lemma RecordFromAlignedDict(h: Host, name: string, fs: seq<Field>, es: seq<(string, Val)>,
                              vals: seq<(string, Val)>)
    requires DistinctNames(fs) && |es| == |fs| && |vals| == |fs|
    requires forall i :: 0 <= i < |fs| ==> es[i].0 == fs[i].name && vals[i].0 == fs[i].name
    requires forall i :: 0 <= i < |fs| ==> Deserialize(h, es[i].1, fs[i].ty) == Ok(vals[i].1)
    ensures Deserialize(h, VDict(es), TRecord(name, fs)) == Ok(VRecord(name, vals))
  {
    assert DistinctKeys(es);
    forall j | 0 <= j < |es| ensures EntryConverts(h, es, fs, j) {
      assert fs[j].name == es[j].0 && Deserialize(h, es[j].1, fs[j].ty).Ok?;
    }
    forall i | 0 <= i < |fs| ensures Supplied(es, fs[i].name) {
      assert es[i].0 == fs[i].name;
    }
    RecordFromDict(h, name, fs, es);
    var r := Deserialize(h, VDict(es), TRecord(name, fs));
    forall i | 0 <= i < |fs| ensures r.value.fields[i] == vals[i] {
      assert Deserialize(h, es[i].1, fs[i].ty) == Ok(r.value.fields[i].1);
    }
    assert r.value.fields == vals;
  }

  /** `serialize` and `asdict` leave scalars as they are. */
  lemma EmitScalar(h: Host, v: Val, top: bool)
    requires v.VNone? || v.VBool? || v.VInt? || v.VFloat? || v.VStr?
    ensures Emit(h, v, top) == v
  {
    if top {
      assert SerializeField(h, v) == Serialize(h, v);
    }
  }

  lemma EmitUuid(h: Host, v: Val, top: bool)
    requires v.VUuid?
    ensures Emit(h, v, top) == if top then VStr(Uuid.Hex(v.u)) else v
  {
    if top {
      assert SerializeField(h, v) == Serialize(h, v);
    }
  }

  lemma EmitDatetime(h: Host, v: Val, top: bool)
    requires v.VDatetime?
    ensures Emit(h, v, top) == if top then VStr(h.isoFormat(v.d)) else v
  {
    if top {
      assert SerializeField(h, v) == Serialize(h, v);
    }
  }

  /** A member is written as its value at the top level, and left as the
      member object deeper. */
  lemma EmitMember(h: Host, v: Val, top: bool)
    requires v.VMember? && IsScalar(v.value)
    ensures Emit(h, v, top) == if top then v.value else v
  {
    if top {
      assert SerializeField(h, v) == Serialize(h, v) == Serialize(h, v.value);
      EmitScalar(h, v.value, true);
    }
  }

  /** A dataclass instance becomes a dict wherever it is. */
  lemma EmitRecord(h: Host, v: Val, top: bool)
    requires v.VRecord?
    ensures Emit(h, v, top) == AsDict(v) && AsDict(v).VDict?
  {
  }

  lemma {:induction false} RoundTripAt(h: Host, v: Val, ty: Ty, top: bool)
    requires Lawful(h) && RoundTrips(ty, top) && HasType(v, ty)
    ensures Deserialize(h, Emit(h, v, top), ty) == Ok(v)
    decreases ty, 1
  {
    match ty
    case TPrim(p) =>
      EmitScalar(h, v, top);
    case TUuid =>
      EmitUuid(h, v, top);
      Uuid.HexRoundTrip(v.u);
    case TDatetime =>
      EmitDatetime(h, v, top);
    case TEnum(n, ms, attrs) =>
      EnumRoundTrip(h, v, n, ms, attrs, top);
    case TList(e) =>
      ListRoundTrip(h, v, ty, top);
    case TRecord(n, fs) =>
      RecordRoundTrip(h, v, ty, top);
    case TUnion(cs) =>
      OptionalRoundTrip(h, v, ty, top);
  }

  /** At the top level a member is written as its value and read back by
      value; deeper it is still the member object, which `E(member)` returns
      as it is. */
  lemma EnumRoundTrip(h: Host, v: Val, n: string, ms: seq<Member>, attrs: map<string, Val>, top: bool)
    requires WellFormedEnum(ms) && HasType(v, TEnum(n, ms, attrs))
    ensures Deserialize(h, Emit(h, v, top), TEnum(n, ms, attrs)) == Ok(v)
  {
    var k :| 0 <= k < |ms| && v == MemberVal(n, ms[k]);
    EmitMember(h, v, top);
    assert PyEq(ms[k].value, ms[k].value);
  }

  lemma {:induction false} ListRoundTrip(h: Host, v: Val, ty: Ty, top: bool)
    requires Lawful(h) && ty.TList? && RoundTrips(ty, top) && HasType(v, ty)
    ensures Deserialize(h, Emit(h, v, top), ty) == Ok(v)
    decreases ty, 0
  {
    var e := ty.elem;
    var xs := v.items;
    var ys := AsDict(v).items;
    assert Emit(h, v, top) == VList(ys);
    forall k | 0 <= k < |xs| ensures Deserialize(h, ys[k], e) == Ok(xs[k]) {
      RoundTripAt(h, xs[k], e, false);
    }
    DeserializeList(h, VList(ys), e);
    var r := Deserialize(h, VList(ys), ty);
    assert r.value.items == xs;
  }

  lemma {:induction false} RecordRoundTrip(h: Host, v: Val, ty: Ty, top: bool)
    requires Lawful(h) && ty.TRecord? && RoundTrips(ty, top) && HasType(v, ty)
    ensures Deserialize(h, Emit(h, v, top), ty) == Ok(v)
    decreases ty, 0
  {
    var fs := ty.fields;
    var es := AsDict(v).entries;
    assert Emit(h, v, top) == VDict(es);
    forall i | 0 <= i < |fs| ensures Deserialize(h, es[i].1, fs[i].ty) == Ok(v.fields[i].1) {
      RoundTripAt(h, v.fields[i].1, fs[i].ty, false);
    }
    RecordFromAlignedDict(h, ty.name, fs, es, v.fields);
  }

  /** The kinds of type an optional may wrap in a round trip. */
  ghost predicate OptionalBody(t: Ty, top: bool) {
    t.TPrim? || t.TUuid? || t.TDatetime? || ((t.TEnum? || t.TRecord?) && RoundTrips(t, top))
  }

  lemma {:induction false} OptionalRoundTrip(h: Host, v: Val, ty: Ty, top: bool)
    requires Lawful(h) && ty.TUnion? && RoundTrips(ty, top) && HasType(v, ty)
    ensures Deserialize(h, Emit(h, v, top), ty) == Ok(v)
    decreases ty, 0
  {
    var cs := ty.cands;
    var k := OptionalShape(ty, top, v);
    var t := cs[k];
    var w := Emit(h, v, top);
    if v == VNone {
      EmitScalar(h, v, top);
      OptionalOfNone(h, cs, k, top);
    } else {
      EmitNotNone(h, v, t, top);
      if Claims(w, t) {
        ClaimedIsSelf(h, v, t, top);
        UnionFastPath(h, w, cs, k);
      } else {
        LeafOrNestedRoundTrip(h, v, t, top);
        OptionalSearch(h, w, cs, k, v);
      }
    }
  }

  /** The position of the wrapped type in a round-tripping optional, and
      the fact that a non-`None` value is an instance of it. */
  lemma OptionalShape(ty: Ty, top: bool, v: Val) returns (k: nat)
    requires ty.TUnion? && RoundTrips(ty, top) && HasType(v, ty)
    ensures |ty.cands| == 2 && k < 2 && ty.cands[1 - k] == TNone && ty.cands[k] != TNone
    ensures OptionalBody(ty.cands[k], top)
    ensures v != VNone ==> HasType(v, ty.cands[k])
  {
    k := OptionalIndex(ty, top);
    if v != VNone {
      OptionalPayload(ty, k, v);
    }
  }

  /** The position of the wrapped type in a round-tripping optional. */
  lemma OptionalIndex(ty: Ty, top: bool) returns (k: nat)
    requires ty.TUnion? && RoundTrips(ty, top)
    ensures |ty.cands| == 2 && k < 2 && ty.cands[1 - k] == TNone && ty.cands[k] != TNone
    ensures OptionalBody(ty.cands[k], top)
  {
    var cs := ty.cands;
    assert ty == TUnion(cs);
    k :| 0 <= k < 2 && cs[1 - k] == TNone && cs[k] != TNone
           && (cs[k].TPrim? || cs[k].TUuid? || cs[k].TDatetime?
               || ((cs[k].TEnum? || cs[k].TRecord?) && RoundTrips(cs[k], top)));
  }

  /** A value of an optional other than `None` belongs to the wrapped type. */
  lemma OptionalPayload(ty: Ty, k: nat, v: Val)
    requires ty.TUnion? && |ty.cands| == 2 && k < 2 && ty.cands[1 - k] == TNone
    requires HasType(v, ty) && v != VNone
    ensures HasType(v, ty.cands[k])
  {
    var cs := ty.cands;
    assert ty == TUnion(cs);
    var i :| 0 <= i < |cs| && HasType(v, cs[i]);
    assert !HasType(v, cs[1 - k]);
    assert i == k;
  }

  /** `None` is claimed by the `NoneType` candidate of an optional. */
  lemma OptionalOfNone(h: Host, cs: seq<Ty>, k: nat, top: bool)
    requires |cs| == 2 && k < 2 && cs[1 - k] == TNone && cs[k] != TNone && OptionalBody(cs[k], top)
    ensures Deserialize(h, VNone, TUnion(cs)) == Ok(VNone)
  {
    assert !Claims(VNone, cs[k]);
    UnionFastPath(h, VNone, cs, 1 - k);
  }

  /** What `serialize` leaves for a non-`None` value is not `None`. */
  lemma EmitNotNone(h: Host, v: Val, t: Ty, top: bool)
    requires HasType(v, t) && OptionalBody(t, top)
    ensures Emit(h, v, top) != VNone
  {
    EmitLeaf(h, v, t, top);
  }

  /** A candidate that claims what `serialize` left holds the original
      object itself. */
  lemma ClaimedIsSelf(h: Host, v: Val, t: Ty, top: bool)
    requires HasType(v, t) && OptionalBody(t, top) && Claims(Emit(h, v, top), t)
    ensures Emit(h, v, top) == v
  {
    EmitLeaf(h, v, t, top);
  }

  /** Neither candidate of an optional claims a value that is not `None`
      and that the wrapped candidate does not claim. */
  lemma OptionalNotClaimed(w: Val, cs: seq<Ty>, k: nat)
    requires |cs| == 2 && k < 2 && cs[1 - k] == TNone && !cs[k].TList? && !cs[k].TUnion?
    requires w != VNone && !Claims(w, cs[k])
    ensures FastPath(w, cs) == Ok(false)
  {
    assert !Claims(w, cs[1 - k]);
  }

  /** An optional whose value neither candidate claims is converted by
      the wrapped candidate, `NoneType(x)` failing with `TypeError`
      whichever comes first. */
  lemma OptionalSearch(h: Host, w: Val, cs: seq<Ty>, k: nat, v: Val)
    requires |cs| == 2 && k < 2 && cs[1 - k] == TNone && !cs[k].TList? && !cs[k].TUnion?
    requires w != VNone && !Claims(w, cs[k])
    requires Deserialize(h, w, cs[k]) == Ok(v)
    ensures Deserialize(h, w, TUnion(cs)) == Ok(v)
  {
    OptionalNotClaimed(w, cs, k);
    assert Deserialize(h, w, TNone) == Raise(TypeError);
    assert AllRecoverable(h, w, cs, 0, k);
    TryCandidatesFirst(h, w, TUnion(cs), 0, k);
  }

  /** What `serialize` leaves for a value an optional may wrap: the value
      itself, or (at the top level) a string or a member's scalar value,
      or a dict for a dataclass instance. */
  lemma EmitLeaf(h: Host, v: Val, t: Ty, top: bool)
    requires HasType(v, t) && OptionalBody(t, top)
    ensures var w := Emit(h, v, top);
      && w != VNone
      && (w == v || w.VStr? || (t.TEnum? && IsScalar(w)) || w.VDict?)
      && (t.TEnum? ==> IsScalar(v.value))
  {
    match t
    case TPrim(p) =>
      EmitScalar(h, v, top);
    case TUuid =>
      EmitUuid(h, v, top);
    case TDatetime =>
      EmitDatetime(h, v, top);
    case TEnum(n, ms, _) =>
      var k :| 0 <= k < |ms| && v == MemberVal(n, ms[k]);
      assert IsScalar(ms[k].value);
      EmitMember(h, v, top);
    case TRecord(_, _) =>
      EmitRecord(h, v, top);
  }

  /** The candidate of an optional that did not claim the value on the fast
      path converts it back. */
  lemma {:induction false} LeafOrNestedRoundTrip(h: Host, v: Val, t: Ty, top: bool)
    requires Lawful(h) && HasType(v, t) && OptionalBody(t, top)
    requires !Claims(Emit(h, v, top), t)
    ensures Deserialize(h, Emit(h, v, top), t) == Ok(v)
    decreases t, 2
  {
    match t
    case TPrim(p) =>
      EmitScalar(h, v, top);
    case TUuid =>
      EmitUuid(h, v, top);
      Uuid.HexRoundTrip(v.u);
    case TDatetime =>
      EmitDatetime(h, v, top);
    case TEnum(_, _, _) =>
      RoundTripAt(h, v, t, top);
    case TRecord(_, _) =>
      RoundTripAt(h, v, t, top);
  }

  /** The round trip: a dataclass instance whose field types all round-trip
      at the top level is given back by `deserialize` from what `serialize`
      made of it. */
  lemma RoundTripRecord(h: Host, x: Val, ty: Ty)
    requires Lawful(h) && ty.TRecord? && DistinctNames(ty.fields)
    requires forall i :: 0 <= i < |ty.fields| ==> RoundTrips(ty.fields[i].ty, true)
    requires HasType(x, ty)
    ensures Deserialize(h, Serialize(h, x), ty) == Ok(x)
  {
    var fs := ty.fields;
    var es := Serialize(h, x).entries;
    forall i | 0 <= i < |fs| ensures Deserialize(h, es[i].1, fs[i].ty) == Ok(x.fields[i].1) {
      RoundTripAt(h, x.fields[i].1, fs[i].ty, true);
    }
    RecordFromAlignedDict(h, ty.name, fs, es, x.fields);
  }
}

/** When `serialize`'s output is plain JSON that `json.dumps` accepts. */
module JsonOutput {
  import opened Values
  import opened Types
  import opened Hosts
  import opened Serializer
  import opened RoundTrip

  /** Field types whose values `serialize` turns into plain JSON at the
      given position: UUIDs, datetimes and enum members are encoded only at
      the top level of a dataclass. */
  ghost predicate JsonSafe(ty: Ty, top: bool)
    decreases ty
  {
    match ty
    case TPrim(_) => true
    case TNone => true
    case TUuid => top
    case TDatetime => top
    case TEnum(_, ms, _) => top && forall i :: 0 <= i < |ms| ==> IsScalar(ms[i].value)
    case TList(e) => JsonSafe(e, false)
    case TRecord(_, fs) => forall i :: 0 <= i < |fs| ==> JsonSafe(fs[i].ty, false)
    case TUnion(cs) => forall i :: 0 <= i < |cs| ==> JsonSafe(cs[i], top)
  }

  lemma {:induction false} JsonAt(h: Host, v: Val, ty: Ty, top: bool)
    requires HasType(v, ty) && JsonSafe(ty, top)
    ensures IsJson(Emit(h, v, top))
    decreases ty
  {
    match ty
    case TPrim(_) =>
      EmitScalar(h, v, top);
    case TNone =>
      EmitScalar(h, v, top);
    case TUuid =>
      EmitUuid(h, v, top);
    case TDatetime =>
      EmitDatetime(h, v, top);
    case TEnum(n, ms, _) =>
      var k :| 0 <= k < |ms| && v == MemberVal(n, ms[k]);
      EmitMember(h, v, top);
      EmitScalar(h, ms[k].value, false);
    case TList(e) =>
      var w := AsDict(v);
      assert Emit(h, v, top) == w;
      forall i | 0 <= i < |w.items| ensures IsJson(w.items[i]) {
        JsonAt(h, v.items[i], e, false);
      }
    case TRecord(_, fs) =>
      var w := AsDict(v);
      EmitRecord(h, v, top);
      forall i | 0 <= i < |w.entries| ensures IsJson(w.entries[i].1) {
        JsonAt(h, v.fields[i].1, fs[i].ty, false);
      }
    case TUnion(cs) =>
      var i :| 0 <= i < |cs| && HasType(v, cs[i]);
      JsonAt(h, v, cs[i], top);
  }

  /** `serialize` yields plain JSON for a dataclass instance whose nested
      values need no encoding below its top-level fields. */
  lemma SerializeIsJson(h: Host, x: Val, ty: Ty)
    requires ty.TRecord? && HasType(x, ty)
    requires forall i :: 0 <= i < |ty.fields| ==> JsonSafe(ty.fields[i].ty, true)
    ensures IsJson(Serialize(h, x))
  {
    var r := Serialize(h, x);
    forall i | 0 <= i < |r.entries| ensures IsJson(r.entries[i].1) {
      JsonAt(h, x.fields[i].1, ty.fields[i].ty, true);
    }
  }

  /** `serialize` is shallow: a UUID inside a nested dataclass is left as a
      UUID object, so the output is not plain JSON. */
  lemma SerializeIsShallow(h: Host, u: U128)
    ensures var inner := VRecord("Inner", [("id", VUuid(u))]);
            var r := Serialize(h, VRecord("Outer", [("inner", inner)]));
      && r == VDict([("inner", VDict([("id", VUuid(u))]))])
      && !IsJson(r)
  {
    var inner := VRecord("Inner", [("id", VUuid(u))]);
    var d := AsDict(inner);
    assert d.entries[0] == ("id", AsDict(VUuid(u))) == ("id", VUuid(u));
    assert d == VDict([("id", VUuid(u))]);
    var r := Serialize(h, VRecord("Outer", [("inner", inner)]));
    assert r.entries[0] == ("inner", SerializeField(h, inner)) == ("inner", d);
    assert r == VDict([("inner", d)]);
    assert !IsJson(d.entries[0].1);
  }
}
