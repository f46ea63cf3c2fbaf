/** `serialize(obj)`: dataclass instances become dicts (through
    `dataclasses.asdict`), enum members their serialized value, UUIDs their
    `.hex` string and datetimes their `isoformat()` string; everything else
    passes through. Only a dataclass's top-level field values are
    serialized again after `asdict`, so leaves nested deeper are left as
    they are. */
module Serializer {
  import opened Results
  import opened Values
  import opened Hosts
  import Uuid

  /** `dataclasses.asdict`'s recursion: dataclass instances become dicts
      and lists and dicts are rebuilt with their contents converted; every
      other value is copied unchanged. */
  function AsDict(v: Val): (r: Val)
    ensures !r.VRecord?
    ensures v.VRecord? ==>
      && r.VDict? && |r.entries| == |v.fields|
      && forall i :: 0 <= i < |v.fields| ==> r.entries[i].0 == v.fields[i].0
    ensures v.VList? ==> r.VList? && |r.items| == |v.items|
    ensures v.VDict? ==> r.VDict?
    ensures !(v.VRecord? || v.VList? || v.VDict?) ==> r == v
  {
    match v
    case VRecord(_, fs) => VDict(seq(|fs|, i requires 0 <= i < |fs| => (fs[i].0, AsDict(fs[i].1))))
    case VList(xs) => VList(seq(|xs|, i requires 0 <= i < |xs| => AsDict(xs[i])))
    case VDict(es) => VDict(seq(|es|, i requires 0 <= i < |es| => (es[i].0, AsDict(es[i].1))))
    case _ => v
  }

  function Serialize(h: Host, v: Val): (r: Val)
    ensures !(r.VRecord? || r.VMember? || r.VUuid? || r.VDatetime?)
    ensures v.VRecord? ==>
      && r.VDict? && |r.entries| == |v.fields|
      && forall i :: 0 <= i < |v.fields| ==> r.entries[i].0 == v.fields[i].0
    ensures v.VUuid? ==> r.VStr? && Uuid.Parse(r.s) == Ok(v.u)
    ensures v.VDatetime? && Lawful(h) ==> r.VStr? && h.fromIso(r.s) == Some(v.d)
    ensures v.VNone? || v.VBool? || v.VInt? || v.VFloat? || v.VStr? || v.VList? || v.VDict? ==> r == v
    decreases v, 0
  {
    match v
    case VRecord(_, fs) =>
      VDict(seq(|fs|, i requires 0 <= i < |fs| => (fs[i].0, SerializeField(h, fs[i].1))))
    case VMember(_, _, value) => Serialize(h, value)
    case VUuid(u) =>
      Uuid.HexRoundTrip(u);
      VStr(Uuid.Hex(u))
    case VDatetime(d) => VStr(h.isoFormat(d))
    case _ => v
  }

  /** `serialize(asdict(obj)[key])` for a field value `fv`: what `asdict`
      turned into a dict or list passes through `serialize` unchanged, and
      every other value is exactly `fv` again. Either way no object that
      `serialize` encodes is left at the top of the field. */
  function SerializeField(h: Host, fv: Val): (r: Val)
    ensures !(r.VRecord? || r.VMember? || r.VUuid? || r.VDatetime?)
    decreases fv, 1
  {
    if fv.VRecord? || fv.VList? || fv.VDict? then AsDict(fv) else Serialize(h, fv)
  }

  /** `SerializeField` is the composition the source performs. */
  lemma SerializeFieldIsComposition(h: Host, fv: Val)
    ensures SerializeField(h, fv) == Serialize(h, AsDict(fv))
  {
  }

  /** A dataclass instance becomes a dict with one entry per field, in
      declaration order, each holding `serialize(asdict(...))` of the field. */
  lemma SerializeRecord(h: Host, cls: string, fs: seq<(string, Val)>)
    ensures var r := Serialize(h, VRecord(cls, fs));
      && r.VDict? && |r.entries| == |fs|
      && forall i :: 0 <= i < |fs| ==> r.entries[i] == (fs[i].0, Serialize(h, AsDict(fs[i].1)))
  {
    forall i | 0 <= i < |fs| {
      SerializeFieldIsComposition(h, fs[i].1);
    }
  }
}
