/** `deserialize(json, target_type=...)` and its two helpers
    `_deserialize_enum` and `_deserialize_union`: a type-directed walk that
    builds typed objects from a JSON-like value. */
module Deserializer {
  import opened Results
  import opened Values
  import opened Types
  import opened Hosts
  import opened Runtime
  import Uuid

  /** Converts `json` to an object of type `ty`, or names the exception
      Python would raise. */
  function Deserialize(h: Host, json: Val, ty: Ty): (r: Result<Val>)
    ensures ty.TRecord? && r.Ok? ==>
      && r.value.VRecord? && r.value.cls == ty.name
      && |r.value.fields| == |ty.fields|
      && forall i :: 0 <= i < |ty.fields| ==> r.value.fields[i].0 == ty.fields[i].name
    ensures ty.TList? && r.Ok? ==>
      r.value.VList? && Iterate(json).Ok? && |r.value.items| == |Iterate(json).value|
    ensures ty.TEnum? && r.Ok? && !(r.value.VMember? && r.value.enumName == ty.name) ==>
      json.VStr? && json.s in ty.attrs && r.value == ty.attrs[json.s]
    ensures ty.TUuid? && r.Ok? ==> r.value.VUuid?
    ensures ty.TDatetime? && r.Ok? ==> r.value.VDatetime?
    ensures ty.TNone? ==> r == Raise(TypeError)
    decreases ty, 1
  {
    match ty
    case TRecord(name, fields) =>
      var keys :- Iterate(json);
      var kwargs :- Kwargs(h, json, ty, keys, 0, map[]);
      var vals :- Bind(fields, kwargs);
      Ok(VRecord(name, vals))
    case TList(_) =>
      var items :- Iterate(json);
      var out :- Items(h, ty, items, 0);
      Ok(VList(out))
    case TUnion(_) => DeserializeUnion(h, json, ty)
    case TEnum(name, members, attrs) => DeserializeEnum(json, name, members, attrs)
    case TDatetime => FromIsoFormat(h, json)
    case TUuid => Uuid.Construct(json)
    case TPrim(p) => h.construct(p, json)
    case TNone =>
      // `NoneType(x)` takes no arguments
      Raise(TypeError)
  }

  // ---------------------------------------------------------------------
  // Records

  /** `field_types[key]`: the position of the field named `key`. */
  function FieldIndex(fs: seq<Field>, key: Val): (r: Result<nat>)
    ensures r.Ok? <==> key.VStr? && exists i :: 0 <= i < |fs| && fs[i].name == key.s
    ensures r.Ok? ==> r.value < |fs| && key == VStr(fs[r.value].name)
    ensures r.Raise? ==> r.err == (if key.Hashable() then KeyError else TypeError)
  {
    if !key.Hashable() then Raise(TypeError)
    else if !key.VStr? then Raise(KeyError)
    else if |fs| == 0 then Raise(KeyError)
    else if fs[0].name == key.s then Ok(0)
    else
      var i :- FieldIndex(fs[1..], key);
      Ok(i + 1)
  }

  /** One entry of the `kwargs` comprehension:
      `key: deserialize(json[key], target_type=field_types[key])`. */
  function KeyStep(h: Host, json: Val, ty: Ty, key: Val): (r: Result<(string, Val)>)
    requires ty.TRecord?
    ensures Subscript(json, key).Raise? ==> r == Raise(Subscript(json, key).err)
    ensures r.Ok? ==>
      && key == VStr(r.value.0) && Subscript(json, key).Ok?
      && exists i :: 0 <= i < |ty.fields| && ty.fields[i].name == r.value.0
    decreases ty, 0, 0
  {
    var sub :- Subscript(json, key);
    var i :- FieldIndex(ty.fields, key);
    var v :- Deserialize(h, sub, ty.fields[i].ty);
    Ok((ty.fields[i].name, v))
  }

  /** The `kwargs` dict built from `keys[i..]` on top of `acc`. */
  function Kwargs(h: Host, json: Val, ty: Ty, keys: seq<Val>, i: nat, acc: map<string, Val>)
    : (r: Result<map<string, Val>>)
    requires ty.TRecord? && i <= |keys|
    ensures r.Ok? ==> acc.Keys <= r.value.Keys
    ensures r.Ok? ==> forall k :: k in r.value && k !in acc ==>
      exists j :: 0 <= j < |ty.fields| && ty.fields[j].name == k
    decreases ty, 0, |keys| - i + 1
  {
    if i == |keys| then Ok(acc)
    else
      var kv :- KeyStep(h, json, ty, keys[i]);
      Kwargs(h, json, ty, keys, i + 1, acc[kv.0 := kv.1])
  }

  /** The dataclass constructor `target_type(**kwargs)`: each field takes
      its keyword argument, else its default; a field with neither is a
      missing argument, which is a `TypeError`. */
  function Bind(fs: seq<Field>, kwargs: map<string, Val>): (r: Result<seq<(string, Val)>>)
    ensures r.Ok? <==> forall i :: 0 <= i < |fs| ==> fs[i].name in kwargs || fs[i].default.Some?
    ensures r.Raise? ==> r.err == TypeError
    ensures r.Ok? ==> |r.value| == |fs| && forall i :: 0 <= i < |fs| ==>
      r.value[i] == (fs[i].name,
                     if fs[i].name in kwargs then kwargs[fs[i].name] else fs[i].default.value)
  {
    if |fs| == 0 then Ok([])
    else
      var f := fs[0];
      var v :- if f.name in kwargs then Ok(kwargs[f.name])
               else if f.default.Some? then Ok(f.default.value)
               else Raise(TypeError);
      var rest :- Bind(fs[1..], kwargs);
      Ok([(f.name, v)] + rest)
  }

  // ---------------------------------------------------------------------
  // Lists

  /** The list comprehension over `xs[i..]`. */
  function Items(h: Host, ty: Ty, xs: seq<Val>, i: nat): (r: Result<seq<Val>>)
    requires ty.TList? && i <= |xs|
    ensures r.Ok? ==> |r.value| == |xs| - i
    decreases ty, 0, |xs| - i
  {
    if i == |xs| then Ok([])
    else
      var y :- Deserialize(h, xs[i], ty.elem);
      var ys :- Items(h, ty, xs, i + 1);
      Ok([y] + ys)
  }

  // ---------------------------------------------------------------------
  // Unions

  /** Candidate `t` claims `json` as it is: `isinstance(json, t)` and `t` is
      not `str`. */
  predicate Claims(json: Val, t: Ty) {
    IsInstance(json, t) == Ok(true) && t != TPrim(PStr)
  }

  /** The first loop of `_deserialize_union`: whether some candidate claims
      `json` before an `isinstance` check raises. */
  function FastPath(json: Val, cands: seq<Ty>): (r: Result<bool>)
    ensures r == Ok(true) <==>
      exists i :: 0 <= i < |cands| && Claims(json, cands[i])
        && forall j :: 0 <= j < i ==> IsInstance(json, cands[j]).Ok?
    ensures r == Ok(false) <==>
      forall i :: 0 <= i < |cands| ==> IsInstance(json, cands[i]).Ok? && !Claims(json, cands[i])
    ensures r.Raise? ==> r.err == TypeError
  {
    if |cands| == 0 then Ok(false)
    else
      var inst :- IsInstance(json, cands[0]);
      if inst && cands[0] != TPrim(PStr) then Ok(true)
      else
        var rest := FastPath(json, cands[1..]);
        assert forall i :: 1 <= i < |cands| ==> cands[1..][i - 1] == cands[i];
        rest
  }

  /** The second loop of `_deserialize_union`, from candidate `i` on: the
      first candidate whose conversion does not raise `ValueError` or
      `TypeError` decides; if none does, `ValueError`. */
  function TryCandidates(h: Host, json: Val, ty: Ty, i: nat): (r: Result<Val>)
    requires ty.TUnion? && i <= |ty.cands|
    ensures i == |ty.cands| ==> r == Raise(ValueError)
    ensures r.Raise? && r.err.Recoverable() ==> r.err == ValueError
    decreases ty, 0, |ty.cands| - i
  {
    if i == |ty.cands| then Raise(ValueError)
    else
      var attempt := Deserialize(h, json, ty.cands[i]);
      if attempt.Decisive() then attempt else TryCandidates(h, json, ty, i + 1)
  }

  /** `_deserialize_union`. The `str` warning it may emit has no effect on
      the result. */
  function DeserializeUnion(h: Host, json: Val, ty: Ty): (r: Result<Val>)
    requires ty.TUnion?
    ensures |ty.cands| == 0 ==> r == Raise(AssertionError)
    ensures |ty.cands| > 0 && FastPath(json, ty.cands) == Ok(true) ==> r == Ok(json)
    ensures |ty.cands| > 0 && FastPath(json, ty.cands).Raise? ==> r == Raise(TypeError)
    ensures r == Raise(TypeError) ==> FastPath(json, ty.cands).Raise?
    decreases ty, 0, |ty.cands| + 1
  {
    if |ty.cands| == 0 then Raise(AssertionError)
    else
      var claimed :- FastPath(json, ty.cands);
      if claimed then Ok(json) else TryCandidates(h, json, ty, 0)
  }

  // ---------------------------------------------------------------------
  // Enums

  /** The first member whose value equals `v`. */
  function FirstValue(ms: seq<Member>, v: Val): (r: Option<nat>)
    ensures r.Some? ==>
      && r.value < |ms| && PyEq(ms[r.value].value, v)
      && forall j :: 0 <= j < r.value ==> !PyEq(ms[j].value, v)
    ensures r.None? ==> forall j :: 0 <= j < |ms| ==> !PyEq(ms[j].value, v)
  {
    if |ms| == 0 then None
    else if PyEq(ms[0].value, v) then Some(0)
    else
      match FirstValue(ms[1..], v)
      case Some(i) => Some(i + 1)
      case None => None
  }

  /** The first member named `s`. */
  function FirstName(ms: seq<Member>, s: string): (r: Option<nat>)
    ensures r.Some? ==>
      && r.value < |ms| && ms[r.value].name == s
      && forall j :: 0 <= j < r.value ==> ms[j].name != s
    ensures r.None? ==> forall j :: 0 <= j < |ms| ==> ms[j].name != s
  {
    if |ms| == 0 then None
    else if ms[0].name == s then Some(0)
    else
      match FirstName(ms[1..], s)
      case Some(i) => Some(i + 1)
      case None => None
  }

  /** `E(json)`: a member of `E` is returned as it is; otherwise the first
      member whose value equals `json`, else `ValueError`. */
  function EnumCall(json: Val, name: string, ms: seq<Member>): (r: Result<Val>)
    ensures r.Ok? <==>
      (json.VMember? && json.enumName == name) || exists i :: 0 <= i < |ms| && PyEq(ms[i].value, json)
    ensures r.Ok? ==> r.value.VMember? && r.value.enumName == name
    ensures r.Raise? ==> r.err == ValueError
    ensures json.VMember? && json.enumName == name ==> r == Ok(json)
    ensures forall i :: 0 <= i < |ms| && PyEq(ms[i].value, json)
                        && (forall j :: 0 <= j < i ==> !PyEq(ms[j].value, json))
                        && !(json.VMember? && json.enumName == name)
               ==> r == Ok(MemberVal(name, ms[i]))
  {
    if json.VMember? && json.enumName == name then Ok(json)
    else
      match FirstValue(ms, json)
      case Some(i) => Ok(MemberVal(name, ms[i]))
      case None => Raise(ValueError)
  }

  /** `getattr(E, ms[i].name)`: an alias name (a later member repeating an
      earlier value) denotes the earlier, canonical member. */
  function Canonical(name: string, ms: seq<Member>, i: nat): (m: Val)
    requires i < |ms|
    ensures exists j :: 0 <= j <= i && m == MemberVal(name, ms[j]) && PyEq(ms[j].value, ms[i].value)
                        && forall l :: 0 <= l < j ==> !PyEq(ms[l].value, ms[i].value)
  {
    MemberVal(name, ms[CanonicalIndex(ms, i, 0)])
  }

  /** The first position from `j` on, up to `i`, holding a value equal to
      that of member `i`. */
  function CanonicalIndex(ms: seq<Member>, i: nat, j: nat): (k: nat)
    requires j <= i < |ms|
    ensures j <= k <= i && PyEq(ms[k].value, ms[i].value)
    ensures forall l :: j <= l < k ==> !PyEq(ms[l].value, ms[i].value)
    decreases i - j
  {
    if j == i || PyEq(ms[j].value, ms[i].value) then j else CanonicalIndex(ms, i, j + 1)
  }

  /** `hasattr(E, s)` then `getattr(E, s)`: a member name gives its
      (canonical) member, any other class attribute its value, and a
      string naming neither is a `ValueError`. */
  function EnumAttr(s: string, name: string, ms: seq<Member>, attrs: map<string, Val>)
    : (r: Result<Val>)
    ensures r.Ok? && !(r.value.VMember? && r.value.enumName == name) ==>
      s in attrs && r.value == attrs[s]
    ensures forall i :: 0 <= i < |ms| && ms[i].name == s && (forall j :: 0 <= j < i ==> ms[j].name != s)
               ==> r == Ok(Canonical(name, ms, i))
    ensures (forall j :: 0 <= j < |ms| ==> ms[j].name != s)
            ==> r == (if s in attrs then Ok(attrs[s]) else Raise(ValueError))
  {
    match FirstName(ms, s)
    case Some(i) => Ok(Canonical(name, ms, i))
    case None => if s in attrs then Ok(attrs[s]) else Raise(ValueError)
  }

  /** `_deserialize_enum`. A number or bool is looked up by value only.
      Anything else is tried by value; then `hasattr`/`getattr` look a
      string up among the class's attributes, where a member name gives its
      (canonical) member and any other attribute its value. A non-string
      that is no member's value fails in `hasattr` with `TypeError`. */
  function DeserializeEnum(json: Val, name: string, ms: seq<Member>, attrs: map<string, Val>)
    : (r: Result<Val>)
    ensures json.IsNumeric() ==>
      && (r.Ok? <==> exists i :: 0 <= i < |ms| && PyEq(ms[i].value, json))
      && (r.Raise? ==> r.err == ValueError)
    ensures r.Ok? && !(r.value.VMember? && r.value.enumName == name) ==>
      json.VStr? && json.s in attrs && r.value == attrs[json.s]
    ensures json.VMember? && json.enumName == name ==> r == Ok(json)
    ensures forall i :: 0 <= i < |ms| && PyEq(ms[i].value, json)
                        && (forall j :: 0 <= j < i ==> !PyEq(ms[j].value, json))
                        && !(json.VMember? && json.enumName == name)
               ==> r == Ok(MemberVal(name, ms[i]))
    ensures forall i :: 0 <= i < |ms| && json == VStr(ms[i].name)
                        && (forall j :: 0 <= j < |ms| ==> !PyEq(ms[j].value, json))
                        && (forall j :: 0 <= j < i ==> ms[j].name != json.s)
               ==> r == Ok(Canonical(name, ms, i))
    ensures json.VStr? && (forall j :: 0 <= j < |ms| ==> !PyEq(ms[j].value, json) && ms[j].name != json.s)
            ==> r == (if json.s in attrs then Ok(attrs[json.s]) else Raise(ValueError))
    ensures !json.IsNumeric() && !json.VStr? && !(json.VMember? && json.enumName == name)
            && (forall j :: 0 <= j < |ms| ==> !PyEq(ms[j].value, json))
            ==> r == Raise(TypeError)
  {
    var call := EnumCall(json, name, ms);
    if json.IsNumeric() || call.Ok? then call
    else if !json.VStr? then Raise(TypeError)
    else EnumAttr(json.s, name, ms, attrs)
  }

  // ---------------------------------------------------------------------
  // Datetimes

  /** `datetime.fromisoformat(json)`: a string is parsed by the host
      (`ValueError` when malformed); any other value is a `TypeError`. */
  function FromIsoFormat(h: Host, json: Val): (r: Result<Val>)
    ensures r.Ok? <==> json.VStr? && h.fromIso(json.s).Some?
    ensures r.Ok? ==> r.value == VDatetime(h.fromIso(json.s).value)
    ensures r.Raise? ==> r.err == (if json.VStr? then ValueError else TypeError)
  {
    match json
    case VStr(s) =>
      (match h.fromIso(s)
       case Some(d) => Ok(VDatetime(d))
       case None => Raise(ValueError))
    case _ => Raise(TypeError)
  }
}
