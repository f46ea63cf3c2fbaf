/** The repository's own test cases, stated about the model. Values the
    host's constructors produce are left to `Lawful` or to explicit
    assumptions about the host in the `requires`. */
module Examples {
  import opened Results
  import opened Values
  import opened Types
  import opened Hosts
  import opened Deserializer
  import opened Serializer
  import opened RecordFacts
  import CollectionFacts

  /** Some of the attributes every enum class has besides its members. */
  function ClassAttrs(name: string): map<string, Val> {
    map["__name__" := VStr(name), "__qualname__" := VStr(name), "mro" := VObject(name + ".mro")]
  }

  const TrollMembers: seq<Member> := [Member("one", VInt(1)), Member("two", VInt(2)), Member("many", VInt(3))]
  const AlphabetMembers: seq<Member> :=
    [Member("a", VStr("alpha")), Member("b", VStr("beta")), Member("g", VStr("gamma"))]
  const TrollCount: Ty := TEnum("TrollCount", TrollMembers, ClassAttrs("TrollCount"))
  const Alphabet: Ty := TEnum("Alphabet", AlphabetMembers, ClassAttrs("Alphabet"))

  const Simple: Ty := TRecord("Simple", [Field("num", TPrim(PInt), None)])
  const Optional: Ty := TUnion([TPrim(PInt), TNone])
  const HasOption: Ty :=
    TRecord("HasOption", [Field("name", TPrim(PStr), None), Field("extra", Optional, None)])
  const HasDefaultOption: Ty :=
    TRecord("HasDefaultOption", [Field("name", TPrim(PStr), None), Field("extra", Optional, Some(VNone))])
  const UnionNum: Ty := TUnion([TPrim(PFloat), TPrim(PInt)])

  const Many: Val := VMember("TrollCount", "many", VInt(3))
  const Gamma: Val := VMember("Alphabet", "g", VStr("gamma"))

  /** `deserialize` on an enum type is `_deserialize_enum`. */
  lemma {:induction false} EnumUnfold(h: Host, json: Val, n: string, ms: seq<Member>, attrs: map<string, Val>)
    ensures Deserialize(h, json, TEnum(n, ms, attrs)) == DeserializeEnum(json, n, ms, attrs)
  {
    // Unfold `Deserialize` once, on its enum branch.
    var ty := TEnum(n, ms, attrs);
    match ty
    case TEnum(_, _, _) =>
  }

  /** A missing int is a `ValueError`. */
  lemma IntEnumMissingValue(h: Host, json: Val)
    requires json == VInt(5)
    ensures Deserialize(h, json, TrollCount) == Raise(ValueError)
  {
    var ms := TrollCount.members;
    assert forall j :: 0 <= j < |ms| ==> !PyEq(ms[j].value, json);
    EnumNoMatch(h, json, "TrollCount", ms, TrollCount.attrs);
  }

  /** A string that only looks like a value, and an unknown name, are
      `ValueError` too. */
  lemma IntEnumUnknownString(h: Host, s: string)
    requires s == "3" || s == "three"
    ensures Deserialize(h, VStr(s), TrollCount) == Raise(ValueError)
  {
    var ms := TrollCount.members;
    assert forall j :: 0 <= j < |ms| ==> !PyEq(ms[j].value, VStr(s)) && ms[j].name != s;
    assert s !in TrollCount.attrs;
    EnumNoMatch(h, VStr(s), "TrollCount", ms, TrollCount.attrs);
  }

  /** A name whose member is no alias of an earlier one gives that member. */
  lemma EnumByUniqueName(h: Host, json: Val, n: string, ms: seq<Member>, attrs: map<string, Val>, i: nat)
    requires i < |ms| && json == VStr(ms[i].name)
    requires forall j :: 0 <= j < |ms| ==> !PyEq(ms[j].value, json)
    requires forall j :: 0 <= j < i ==> ms[j].name != json.s && !PyEq(ms[j].value, ms[i].value)
    ensures Deserialize(h, json, TEnum(n, ms, attrs)) == Ok(MemberVal(n, ms[i]))
  {
    CanonicalSelf(n, ms, i);
    EnumUnfold(h, json, n, ms, attrs);
  }

  /** A member whose value no earlier member holds is its own canonical
      member. */
  lemma CanonicalSelf(n: string, ms: seq<Member>, i: nat)
    requires i < |ms|
    requires forall j :: 0 <= j < i ==> !PyEq(ms[j].value, ms[i].value)
    ensures Canonical(n, ms, i) == MemberVal(n, ms[i])
  {
  }

  /** A value held by no earlier member gives that member. */
  lemma EnumByFirstValue(h: Host, json: Val, n: string, ms: seq<Member>, attrs: map<string, Val>, i: nat)
    requires i < |ms| && PyEq(ms[i].value, json) && !json.VMember?
    requires forall j :: 0 <= j < i ==> !PyEq(ms[j].value, json)
    ensures Deserialize(h, json, TEnum(n, ms, attrs)) == Ok(MemberVal(n, ms[i]))
  {
    EnumUnfold(h, json, n, ms, attrs);
  }

  /** A string that is neither a member's value nor an attribute of the
      class, or a number that is no member's value, is a `ValueError`. */
  lemma EnumNoMatch(h: Host, json: Val, n: string, ms: seq<Member>, attrs: map<string, Val>)
    requires json.VStr? || json.IsNumeric()
    requires forall j :: 0 <= j < |ms| ==> !PyEq(ms[j].value, json)
    requires json.VStr? ==> json.s !in attrs && forall j :: 0 <= j < |ms| ==> ms[j].name != json.s
    ensures Deserialize(h, json, TEnum(n, ms, attrs)) == Raise(ValueError)
  {
    EnumUnfold(h, json, n, ms, attrs);
  }

  /** A string that is no member's value or name but names another
      attribute of the class gives that attribute:
      `deserialize("__name__", target_type=E)` is `"E"`. */
  lemma EnumClassAttribute(h: Host, s: string, n: string, ms: seq<Member>, attrs: map<string, Val>)
    requires s in attrs
    requires forall j :: 0 <= j < |ms| ==> !PyEq(ms[j].value, VStr(s)) && ms[j].name != s
    ensures Deserialize(h, VStr(s), TEnum(n, ms, attrs)) == Ok(attrs[s])
  {
    EnumUnfold(h, VStr(s), n, ms, attrs);
  }

  /** `Alphabet.__name__` is reached through the name fallback. */
  lemma AlphabetName(h: Host, s: string)
    requires s == "__name__"
    ensures Deserialize(h, VStr(s), Alphabet) == Ok(VStr("Alphabet"))
  {
    var ms := Alphabet.members;
    assert forall j :: 0 <= j < |ms| ==> !PyEq(ms[j].value, VStr(s)) && ms[j].name != s;
    EnumClassAttribute(h, s, "Alphabet", ms, Alphabet.attrs);
  }

  /** `TrollCount.many` by value, whatever the class's other attributes. */
  lemma IntEnumByValue(h: Host, json: Val, attrs: map<string, Val>)
    requires json == VInt(3)
    ensures Deserialize(h, json, TEnum("TrollCount", TrollMembers, attrs)) == Ok(Many)
  {
    var ms := TrollMembers;
    assert !PyEq(ms[0].value, json) && !PyEq(ms[1].value, json) && PyEq(ms[2].value, json);
    assert Many == MemberVal("TrollCount", ms[2]);
    EnumByFirstValue(h, json, "TrollCount", ms, attrs, 2);
  }

  /** `"many"` is no member's value, and the members before it hold other values. */
  lemma TrollCountNameOnly(json: Val)
    requires json == VStr("many")
    ensures forall j :: 0 <= j < |TrollMembers| ==> !PyEq(TrollMembers[j].value, json)
    ensures forall j :: 0 <= j < 2 ==> TrollMembers[j].name != json.s && !PyEq(TrollMembers[j].value, TrollMembers[2].value)
  {
    var ms := TrollMembers;
    assert !PyEq(ms[0].value, json) && !PyEq(ms[1].value, json) && !PyEq(ms[2].value, json);
    assert !PyEq(ms[0].value, ms[2].value) && !PyEq(ms[1].value, ms[2].value);
  }

  /** `TrollCount.many` by name, whatever the class's other attributes. */
  lemma IntEnumByName(h: Host, json: Val, attrs: map<string, Val>)
    requires json == VStr("many")
    ensures Deserialize(h, json, TEnum("TrollCount", TrollMembers, attrs)) == Ok(Many)
  {
    var ms := TrollMembers;
    assert Many == MemberVal("TrollCount", ms[2]);
    TrollCountNameOnly(json);
    EnumByUniqueName(h, json, "TrollCount", ms, attrs, 2);
  }

  /** `Alphabet.g` by value, whatever the class's other attributes. */
  lemma StringEnumByValue(h: Host, json: Val, attrs: map<string, Val>)
    requires json == VStr("gamma")
    ensures Deserialize(h, json, TEnum("Alphabet", AlphabetMembers, attrs)) == Ok(Gamma)
  {
    var ms := AlphabetMembers;
    assert !PyEq(ms[0].value, json) && !PyEq(ms[1].value, json) && PyEq(ms[2].value, json);
    assert Gamma == MemberVal("Alphabet", ms[2]);
    EnumByFirstValue(h, json, "Alphabet", ms, attrs, 2);
  }

  /** `"g"` is no member's value, and the members before it hold other values. */
  lemma AlphabetNameOnly(json: Val)
    requires json == VStr("g")
    ensures forall j :: 0 <= j < |AlphabetMembers| ==> !PyEq(AlphabetMembers[j].value, json)
    ensures forall j :: 0 <= j < 2 ==> AlphabetMembers[j].name != json.s && !PyEq(AlphabetMembers[j].value, AlphabetMembers[2].value)
  {
    var ms := AlphabetMembers;
    assert !PyEq(ms[0].value, json) && !PyEq(ms[1].value, json) && !PyEq(ms[2].value, json);
    assert !PyEq(ms[0].value, ms[2].value) && !PyEq(ms[1].value, ms[2].value);
  }

  /** `Alphabet.g` by name, whatever the class's other attributes. */
  lemma StringEnumByName(h: Host, json: Val, attrs: map<string, Val>)
    requires json == VStr("g")
    ensures Deserialize(h, json, TEnum("Alphabet", AlphabetMembers, attrs)) == Ok(Gamma)
  {
    var ms := AlphabetMembers;
    assert Gamma == MemberVal("Alphabet", ms[2]);
    AlphabetNameOnly(json);
    EnumByUniqueName(h, json, "Alphabet", ms, attrs, 2);
  }

  /** Members serialise to their values. */
  lemma EnumSerialized(h: Host)
    ensures Serialize(h, Many) == VInt(3)
    ensures Serialize(h, Gamma) == VStr("gamma")
  {
  }

  /** `deserialize` on `UUID` is the `UUID` constructor. */
  lemma {:induction false} UuidUnfold(h: Host, json: Val)
    ensures Deserialize(h, json, TUuid) == Uuid.Construct(json)
  {
  }

  /** Too short. */
  lemma UuidTooShort(h: Host, s: string)
    requires s == "abc"
    ensures Deserialize(h, VStr(s), TUuid) == Raise(ValueError)
  {
    ShortRejected(s);
    UuidUnfold(h, VStr(s));
  }

  /** The test's short string survives normalisation at length 3, so
      parsing it fails. */
  lemma ShortRejected(s: string)
    requires s == "abc"
    ensures Uuid.Parse(s) == Raise(ValueError)
  {
    Uuid.NormalisePlain(s);
    assert |Uuid.Normalise(s)| == 3;
  }

  /** Right length, but one character that is not a hex digit. */
  lemma UuidNotHex(h: Host, s: string)
    requires s == "d3c78de74eba445081002a600b37017x"
    ensures Deserialize(h, VStr(s), TUuid) == Raise(ValueError)
  {
    NotHexPlain(s);
    Uuid.ParseRejectsNonHex(s, 31);
    UuidUnfold(h, VStr(s));
  }

  /** The test's string has nothing for normalisation to remove, and its
      last character is not a hex digit. */
  lemma NotHexPlain(s: string)
    requires s == "d3c78de74eba445081002a600b37017x"
    ensures |s| == 32
    ensures forall i :: 0 <= i < |s| ==> s[i] != 'u' && s[i] != '-' && !Uuid.IsBrace(s[i])
    ensures Uuid.DigitValue(s[31]).None?
  {
  }

  /** Any 32 lowercase hex digits, as the test's UUID string, decode to a
      UUID that serialises back to the same string, and to the same UUID as
      their dashed 8-4-4-4-12 form. */
  lemma UuidStringRoundTrip(h: Host, s: string)
    requires |s| == 32 && forall i :: 0 <= i < |s| ==> Uuid.IsLowerHex(s[i])
    ensures var r := Deserialize(h, VStr(s), TUuid);
      && r.Ok? && r.value.VUuid?
      && Serialize(h, r.value) == VStr(s)
      && Deserialize(h, VStr(Uuid.Dashed(s)), TUuid) == r
  {
    UuidDecoded(h, s);
    UuidDashedSame(h, s);
  }

  /** 32 lowercase hex digits decode to the UUID whose `.hex` they are. */
  lemma UuidDecoded(h: Host, s: string)
    requires |s| == 32 && forall i :: 0 <= i < |s| ==> Uuid.IsLowerHex(s[i])
    ensures var r := Deserialize(h, VStr(s), TUuid);
      r.Ok? && r.value.VUuid? && Uuid.Hex(r.value.u) == s
  {
    UuidUnfold(h, VStr(s));
    Uuid.CanonicalRoundTrip(s);
  }

  /** The dashed form decodes as the bare digits do. */
  lemma UuidDashedSame(h: Host, s: string)
    requires |s| == 32 && forall i :: 0 <= i < |s| ==> Uuid.IsLowerHex(s[i])
    ensures Deserialize(h, VStr(Uuid.Dashed(s)), TUuid) == Deserialize(h, VStr(s), TUuid)
  {
    UuidUnfold(h, VStr(s));
    UuidUnfold(h, VStr(Uuid.Dashed(s)));
    Uuid.DashedConstruct(s);
  }

  /** `Optional[List[int]]` never converts: `isinstance` refuses the
      subscripted `List[int]` before any candidate is tried. */
  lemma OptionalListRaises(h: Host, json: Val)
    ensures Deserialize(h, json, TUnion([TList(TPrim(PInt)), TNone])) == Raise(TypeError)
  {
  }

  /** `Union[float, int]` keeps an int and a float as given. */
  lemma UnionKeepsNative(h: Host, f: Float)
    ensures Deserialize(h, VInt(123), UnionNum) == Ok(VInt(123))
    ensures Deserialize(h, VFloat(f), UnionNum) == Ok(VFloat(f))
  {
    assert Claims(VInt(123), UnionNum.cands[1]);
    CollectionFacts.UnionFastPath(h, VInt(123), UnionNum.cands, 1);
    assert Claims(VFloat(f), UnionNum.cands[0]);
    CollectionFacts.UnionFastPath(h, VFloat(f), UnionNum.cands, 0);
  }

  /** `None` is kept by `Union[float, int, None]`. */
  lemma UnionKeepsNone(h: Host)
    ensures Deserialize(h, VNone, TUnion([TPrim(PFloat), TPrim(PInt), TNone])) == Ok(VNone)
  {
    var cands := [TPrim(PFloat), TPrim(PInt), TNone];
    assert Claims(VNone, cands[2]);
    CollectionFacts.UnionFastPath(h, VNone, cands, 2);
  }

  /** `Union[str, int]` keeps an int on the fast path (`str` never claims
      a value there), and hands a string to `str`, the first candidate. */
  lemma UnionStrInt(h: Host)
    requires Lawful(h)
    ensures Deserialize(h, VInt(123), TUnion([TPrim(PStr), TPrim(PInt)])) == Ok(VInt(123))
    ensures Deserialize(h, VStr("123"), TUnion([TPrim(PStr), TPrim(PInt)])) == Ok(VStr("123"))
  {
    var cands := [TPrim(PStr), TPrim(PInt)];
    assert Claims(VInt(123), cands[1]);
    CollectionFacts.UnionFastPath(h, VInt(123), cands, 1);
    assert OfKind(VStr("123"), PStr);
    assert Deserialize(h, VStr("123"), cands[0]) == Ok(VStr("123"));
    CollectionFacts.UnionOrderedSearch(h, VStr("123"), cands);
    assert CollectionFacts.AllRecoverable(h, VStr("123"), cands, 0, 0);
  }

  /** `True` is an `int` to `isinstance`, so `Union[str, int]` keeps it
      rather than turning it into the string `"True"`. */
  lemma UnionBoolAsInt(h: Host)
    ensures Deserialize(h, VBool(true), TUnion([TPrim(PStr), TPrim(PInt)])) == Ok(VBool(true))
  {
    var cands := [TPrim(PStr), TPrim(PInt)];
    assert Claims(VBool(true), cands[1]);
    CollectionFacts.UnionFastPath(h, VBool(true), cands, 1);
  }

  /** `int(inf)` raises `OverflowError`, which the union does not catch, so
      `Union[int, str]` never reaches `str`. */
  lemma UnionOverflowEscapes(h: Host, json: Val)
    requires json.VFloat? && h.construct(PInt, json) == Raise(OverflowError)
    ensures Deserialize(h, json, TUnion([TPrim(PInt), TPrim(PStr)])) == Raise(OverflowError)
  {
    var cands := [TPrim(PInt), TPrim(PStr)];
    assert !Claims(json, cands[0]) && !Claims(json, cands[1]);
    CollectionFacts.UnionOrderedSearch(h, json, cands);
    assert Deserialize(h, json, cands[0]).Decisive();
    CollectionFacts.TryCandidatesFirst(h, json, TUnion(cands), 0, 0);
  }

  /** A string neither `float` nor `int` accepts makes the union fail. */
  lemma UnionStringRejected(h: Host)
    requires h.construct(PFloat, VStr("abc123")) == Raise(ValueError)
    requires h.construct(PInt, VStr("abc123")) == Raise(ValueError)
    ensures Deserialize(h, VStr("abc123"), UnionNum) == Raise(ValueError)
  {
  }

  /** `Simple(num=12)` serialises to `{"num": 12}`. */
  lemma SimpleSerialized(h: Host)
    ensures Serialize(h, VRecord("Simple", [("num", VInt(12))])) == VDict([("num", VInt(12))])
  {
    assert SerializeField(h, VInt(12)) == VInt(12);
  }

  /** `{"num": 12}` deserialises to `Simple(num=12)`. */
  lemma SimpleDeserialized(h: Host)
    requires Lawful(h)
    ensures Deserialize(h, VDict([("num", VInt(12))]), Simple) == Ok(VRecord("Simple", [("num", VInt(12))]))
  {
    var es := [("num", VInt(12))];
    assert OfKind(VInt(12), PInt);
    assert EntryConverts(h, es, Simple.fields, 0) by {
      assert Simple.fields[0].name == es[0].0;
    }
    assert Supplied(es, "num") by { assert es[0].0 == "num"; }
    RecordFromDict(h, "Simple", Simple.fields, es);
    var r := Deserialize(h, VDict(es), Simple);
    assert r.Ok?;
    assert r.value.fields[0] == ("num", VInt(12));
    assert r.value.fields == [("num", VInt(12))];
  }

  /** A field without a default that the dict does not give is a
      `TypeError`; with a default of `None` the same dict converts. */
  lemma AbsentOptional(h: Host)
    requires Lawful(h)
    ensures Deserialize(h, VDict([("name", VStr("x"))]), HasOption) == Raise(TypeError)
    ensures Deserialize(h, VDict([("name", VStr("x"))]), HasDefaultOption)
            == Ok(VRecord("HasDefaultOption", [("name", VStr("x")), ("extra", VNone)]))
  {
    AbsentOptionalRaises(h, [("name", VStr("x"))]);
    AbsentOptionalDefault(h, [("name", VStr("x"))]);
  }

  /** Without a default, the absent `extra` is a missing argument. */
  lemma AbsentOptionalRaises(h: Host, es: seq<(string, Val)>)
    requires Lawful(h) && es == [("name", VStr("x"))]
    ensures Deserialize(h, VDict(es), HasOption) == Raise(TypeError)
  {
    assert OfKind(VStr("x"), PStr);
    assert EntryConverts(h, es, HasOption.fields, 0) by {
      assert HasOption.fields[0].name == es[0].0;
    }
    assert !Supplied(es, "extra");
    RecordMissingField(h, "HasOption", HasOption.fields, es, 1);
  }

  /** With a default of `None`, the absent `extra` takes it. */
  lemma AbsentOptionalDefault(h: Host, es: seq<(string, Val)>)
    requires Lawful(h) && es == [("name", VStr("x"))]
    ensures Deserialize(h, VDict(es), HasDefaultOption)
            == Ok(VRecord("HasDefaultOption", [("name", VStr("x")), ("extra", VNone)]))
  {
    assert OfKind(VStr("x"), PStr);
    assert EntryConverts(h, es, HasDefaultOption.fields, 0) by {
      assert HasDefaultOption.fields[0].name == es[0].0;
    }
    assert Supplied(es, "name") by { assert es[0].0 == "name"; }
    assert !Supplied(es, "extra");
    RecordFromDict(h, "HasDefaultOption", HasDefaultOption.fields, es);
    var r := Deserialize(h, VDict(es), HasDefaultOption);
    assert r.Ok?;
    assert r.value.fields[0] == ("name", VStr("x"));
    assert r.value.fields[1] == ("extra", VNone);
    assert r.value.fields == [("name", VStr("x")), ("extra", VNone)];
  }

  /** An extra key is not ignored: it raises `KeyError`. */
  lemma ExtraKeyRaises(h: Host)
    requires Lawful(h)
    ensures Deserialize(h, VDict([("num", VInt(1)), ("extra", VInt(2))]), Simple) == Raise(KeyError)
  {
    var es := [("num", VInt(1)), ("extra", VInt(2))];
    assert OfKind(VInt(1), PInt);
    assert EntryConverts(h, es, Simple.fields, 0) by {
      assert Simple.fields[0].name == es[0].0;
    }
    RecordUnknownKey(h, "Simple", Simple.fields, es, 1);
  }
}
