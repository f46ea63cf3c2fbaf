/** The library code the converter calls but does not define: the
    constructors `str`, `int`, `float` and `bool`, and the ISO 8601 parser
    and printer of `datetime`. They are parameters of the model, so every
    property holds for any behaviour of them unless it says otherwise. */
module Hosts {
  import opened Results
  import opened Values
  import opened Types

  datatype Host = Host(
    /** `str(v)`, `int(v)`, `float(v)` or `bool(v)`, raising any class
        (`int(inf)` raises `OverflowError`, for instance). */
    construct: (Prim, Val) -> Result<Val>,
    /** `datetime.fromisoformat(s)`; `None` when `s` is malformed. */
    fromIso: string -> Option<Datetime>,
    /** `d.isoformat()`. */
    isoFormat: Datetime -> string)

  /** The facts about the host that the round trip relies on: each
      constructor returns a value of its own type unchanged, and parsing an
      ISO string the printer produced gives back the same instant. */
  ghost predicate Lawful(h: Host) {
    && (forall p, v :: OfKind(v, p) ==> h.construct(p, v) == Ok(v))
    && (forall d :: h.fromIso(h.isoFormat(d)) == Some(d))
  }
}
