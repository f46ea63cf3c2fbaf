/** Type descriptors: the closed set of target types the converter
    dispatches on. Python discovers these shapes by reflection
    (`is_dataclass`, `fields`, `__origin__`, `__args__`, `issubclass`); here
    they are a datatype, and the reflection helpers `is_union_type`,
    `is_list_type`, `get_union_types` and `list_type_argument` become its
    discriminators and destructors (`TUnion?`, `TList?`, `.cands`, `.elem`). */
module Types {
  import opened Results
  import opened Values

  /** Leaf types built by calling the type on the value. */
  datatype Prim = PStr | PInt | PFloat | PBool

  /** A dataclass field; `default` is present when the field declares one. */
  datatype Field = Field(name: string, ty: Ty, default: Option<Val>)

  /** An enum member: its declared name and underlying value. */
  datatype Member = Member(name: string, value: Val)

  datatype Ty =
    | TRecord(name: string, fields: seq<Field>)
    | TList(elem: Ty)
      /** Candidates in declared order. */
    | TUnion(cands: seq<Ty>)
      /** `attrs`: the class's attributes other than its members that
          `hasattr` finds (`__name__`, `mro`, methods, ...), with their
          values. */
    | TEnum(name: string, members: seq<Member>, attrs: map<string, Val>)
    | TDatetime
    | TUuid
    | TPrim(prim: Prim)
      /** `NoneType`, which appears inside `Optional[...]`. */
    | TNone

  /** `v` is exactly of primitive kind `p` (a bool is not of kind `PInt`). */
  predicate OfKind(v: Val, p: Prim) {
    match p
    case PStr => v.VStr?
    case PInt => v.VInt?
    case PFloat => v.VFloat?
    case PBool => v.VBool?
  }

  /** Dataclass field names are unique. */
  predicate DistinctNames(fs: seq<Field>) {
    forall i, j :: 0 <= i < j < |fs| ==> fs[i].name != fs[j].name
  }

  /** The enum member object for a table entry. */
  function MemberVal(enumName: string, m: Member): Val {
    VMember(enumName, m.name, m.value)
  }
}
