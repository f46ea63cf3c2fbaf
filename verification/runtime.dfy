/** The pieces of Python's object protocol the converter leans on:
    iteration (`for x in v`), subscription (`v[k]`) and `isinstance`. The
    converter applies them to whatever value it is given, so their failure
    modes decide which exception escapes. */
module Runtime {
  import opened Results
  import opened Values
  import opened Types

  /** The keys of a dict, in insertion order, as `str` objects. */
  function DictKeys(es: seq<(string, Val)>): (ks: seq<Val>)
    ensures |ks| == |es|
    ensures forall i :: 0 <= i < |es| ==> ks[i] == VStr(es[i].0)
  {
    seq(|es|, i requires 0 <= i < |es| => VStr(es[i].0))
  }

  /** `for x in v`: a dict yields its keys, a list its items, a str its
      one-character strings; anything else is not iterable. */
  function Iterate(v: Val): (r: Result<seq<Val>>)
    ensures r.Ok? <==> v.VDict? || v.VList? || v.VStr?
    ensures r.Raise? ==> r.err == TypeError
    ensures v.VList? ==> r == Ok(v.items)
    ensures v.VDict? ==> r == Ok(DictKeys(v.entries))
    ensures v.VStr? ==> |r.value| == |v.s| && forall i :: 0 <= i < |v.s| ==> r.value[i] == VStr([v.s[i]])
  {
    match v
    case VDict(es) => Ok(DictKeys(es))
    case VList(xs) => Ok(xs)
    case VStr(s) => Ok(seq(|s|, i requires 0 <= i < |s| => VStr([s[i]])))
    case _ => Raise(TypeError)
  }

  /** The value stored under `k`, looking from the front. */
  function Lookup(es: seq<(string, Val)>, k: string): (r: Option<Val>)
    ensures r.Some? <==> exists i :: 0 <= i < |es| && es[i].0 == k
    ensures r.Some? ==> exists i :: 0 <= i < |es| && es[i] == (k, r.value)
  {
    if |es| == 0 then None
    else if es[0].0 == k then Some(es[0].1)
    else Lookup(es[1..], k)
  }

  /** Dict keys are unique. */
  predicate DistinctKeys(es: seq<(string, Val)>) {
    forall i, j :: 0 <= i < j < |es| ==> es[i].0 != es[j].0
  }

  lemma {:induction false} LookupDistinct(es: seq<(string, Val)>, i: int)
    requires DistinctKeys(es)
    requires 0 <= i < |es|
    ensures Lookup(es, es[i].0) == Some(es[i].1)
  {
    if i > 0 {
      LookupDistinct(es[1..], i - 1);
    }
  }

  /** A list or string position: an int (or bool) in `-n <= k < n`,
      negative positions counting from the end. */
  function Position(k: Val, n: nat): (r: Result<nat>)
    requires k.VInt? || k.VBool?
    ensures var i := if k.VInt? then k.i else BoolAsInt(k.b);
      && (r.Ok? <==> -(n as int) <= i < n)
      && (r.Ok? ==> r.value as int == (if i >= 0 then i else n + i))
    ensures r.Ok? ==> r.value < n
    ensures r.Raise? ==> r.err == IndexError
  {
    var i := if k.VInt? then k.i else BoolAsInt(k.b);
    if 0 <= i < n then Ok(i)
    else if -(n as int) <= i < 0 then Ok(n + i)
    else Raise(IndexError)
  }

  /** `v[k]`. */
  function Subscript(v: Val, k: Val): (r: Result<Val>)
    ensures v.VDict? && k.VStr? ==> r == (match Lookup(v.entries, k.s)
                                        case Some(x) => Ok(x)
                                        case None => Raise(KeyError))
  {
    match v
    case VDict(es) =>
      if k.VStr? then
        (match Lookup(es, k.s)
         case Some(x) => Ok(x)
         case None => Raise(KeyError))
      else if k.Hashable() then Raise(KeyError)
      else Raise(TypeError)
    case VList(xs) =>
      if k.VInt? || k.VBool? then
        var i :- Position(k, |xs|);
        Ok(xs[i])
      else Raise(TypeError)
    case VStr(s) =>
      if k.VInt? || k.VBool? then
        var i :- Position(k, |s|);
        Ok(VStr([s[i]]))
      else Raise(TypeError)
    case _ => Raise(TypeError)
  }

  /** `isinstance(v, t)`. A subscripted generic such as `List[int]` cannot
      be used with `isinstance`, which raises `TypeError`; so can `Union[...]`
      before Python 3.10, a case no union candidate reaches. `bool` is a
      subclass of `int`. */
  function IsInstance(v: Val, t: Ty): (r: Result<bool>)
    ensures r.Raise? <==> t.TList? || t.TUnion?
    ensures r.Raise? ==> r.err == TypeError
    ensures r == Ok(true) && t.TPrim? && t.prim != PStr ==> v.IsNumeric()
    ensures t.TPrim? ==> (r == Ok(true) <==> OfKind(v, t.prim) || (t.prim == PInt && v.VBool?))
    ensures t.TNone? ==> (r == Ok(true) <==> v == VNone)
    ensures t.TUuid? ==> (r == Ok(true) <==> v.VUuid?)
    ensures t.TDatetime? ==> (r == Ok(true) <==> v.VDatetime?)
    ensures t.TEnum? ==> (r == Ok(true) <==> v.VMember? && v.enumName == t.name)
    ensures t.TRecord? ==> (r == Ok(true) <==> v.VRecord? && v.cls == t.name)
  {
    match t
    case TList(_) => Raise(TypeError)
    case TUnion(_) => Raise(TypeError)
    case TRecord(n, _) => Ok(v.VRecord? && v.cls == n)
    case TEnum(n, _, _) => Ok(v.VMember? && v.enumName == n)
    case TDatetime => Ok(v.VDatetime?)
    case TUuid => Ok(v.VUuid?)
    case TNone => Ok(v.VNone?)
    case TPrim(PStr) => Ok(v.VStr?)
    case TPrim(PInt) => Ok(v.VInt? || v.VBool?)
    case TPrim(PFloat) => Ok(v.VFloat?)
    case TPrim(PBool) => Ok(v.VBool?)
  }
}
