/** What `deserialize` promises for lists and unions. */
module CollectionFacts {
  import opened Results
  import opened Values
  import opened Types
  import opened Hosts
  import opened Runtime
  import opened Deserializer

  // ---------------------------------------------------------------------
  // Lists

  /** The list comprehension with every item already converted: the first
      failure stops it. */
  function Gather(rs: seq<Result<Val>>, i: nat): (r: Result<seq<Val>>)
    requires i <= |rs|
    decreases |rs| - i
  {
    if i == |rs| then Ok([])
    else if rs[i].Raise? then Raise(rs[i].err)
    else
      var ys :- Gather(rs, i + 1);
      Ok([rs[i].value] + ys)
  }

  /** Every item converted on its own. */
  function Conversions(h: Host, xs: seq<Val>, elem: Ty): (r: seq<Result<Val>>)
    ensures |r| == |xs| && forall k :: 0 <= k < |xs| ==> r[k] == Deserialize(h, xs[k], elem)
  {
    seq(|xs|, k requires 0 <= k < |xs| => Deserialize(h, xs[k], elem))
  }

  /** `Items` is `Gather` over the conversions. */
  lemma {:induction false} ItemsGather(h: Host, ty: Ty, xs: seq<Val>, i: nat)
    requires ty.TList? && i <= |xs|
    ensures Items(h, ty, xs, i) == Gather(Conversions(h, xs, ty.elem), i)
    decreases |xs| - i
  {
    if i < |xs| {
      ItemsGather(h, ty, xs, i + 1);
      var rs := Conversions(h, xs, ty.elem);
      assert rs[i] == Deserialize(h, xs[i], ty.elem);
    }
  }

  /** The comprehension succeeds exactly when every item converts, and
      then holds the converted items in order. */
  lemma {:induction false} GatherOk(rs: seq<Result<Val>>, i: nat)
    requires i <= |rs|
    ensures var r := Gather(rs, i);
      && (r.Ok? <==> forall k :: i <= k < |rs| ==> rs[k].Ok?)
      && (r.Ok? ==> |r.value| == |rs| - i && forall k :: i <= k < |rs| ==> Ok(r.value[k - i]) == rs[k])
    decreases |rs| - i
  {
    if i < |rs| {
      GatherOk(rs, i + 1);
    }
  }

  /** The comprehension stops at the first item that fails, with its
      exception. */
  lemma {:induction false} GatherFirstError(rs: seq<Result<Val>>, i: nat, k: nat)
    requires i <= k < |rs| && rs[k].Raise?
    requires forall j :: i <= j < k ==> rs[j].Ok?
    ensures Gather(rs, i) == Raise(rs[k].err)
    decreases |rs| - i
  {
    if i < k {
      GatherFirstError(rs, i + 1, k);
    }
  }

  /** `deserialize` on `List[elem]`: iterate, then convert the items. */
  lemma ListUnfold(h: Host, json: Val, elem: Ty)
    ensures var r := Deserialize(h, json, TList(elem));
      && (Iterate(json).Raise? ==> r == Raise(Iterate(json).err))
      && (Iterate(json).Ok? ==>
            var items := Items(h, TList(elem), Iterate(json).value, 0);
            r == if items.Ok? then Ok(VList(items.value)) else Raise(items.err))
  {
  }

  /** A value that is not iterable is not a list: `TypeError`. */
  lemma ListNotIterable(h: Host, json: Val, elem: Ty)
    requires Iterate(json).Raise?
    ensures Deserialize(h, json, TList(elem)) == Raise(TypeError)
  {
    ListUnfold(h, json, elem);
  }

  /** A list is converted element by element, in order and length
      preserved, and converts exactly when every element does. Any other
      iterable is converted the same way over what it yields (a dict its
      keys, a string its characters). */
  lemma DeserializeList(h: Host, json: Val, elem: Ty)
    requires Iterate(json).Ok?
    ensures var r := Deserialize(h, json, TList(elem));
      var xs := Iterate(json).value;
      && (r.Ok? <==> forall k :: 0 <= k < |xs| ==> Deserialize(h, xs[k], elem).Ok?)
      && (r.Ok? ==> r.value.VList? && |r.value.items| == |xs|
                    && forall k :: 0 <= k < |xs| ==> Ok(r.value.items[k]) == Deserialize(h, xs[k], elem))
  {
    var xs := Iterate(json).value;
    var rs := Conversions(h, xs, elem);
    ListGather(h, json, elem);
    ListOfGather(Deserialize(h, json, TList(elem)), rs);
    forall k | 0 <= k < |xs| ensures rs[k] == Deserialize(h, xs[k], elem) {
    }
  }

  /** A list built by the fold succeeds exactly when every conversion does,
      and then holds the converted items in order. */
  lemma ListOfGather(r: Result<Val>, rs: seq<Result<Val>>)
    requires var g := Gather(rs, 0); r == if g.Ok? then Ok(VList(g.value)) else Raise(g.err)
    ensures r.Ok? <==> forall k :: 0 <= k < |rs| ==> rs[k].Ok?
    ensures r.Ok? ==> r.value.VList? && |r.value.items| == |rs|
                      && forall k :: 0 <= k < |rs| ==> Ok(r.value.items[k]) == rs[k]
  {
    GatherOk(rs, 0);
  }

  /** A list target's result is the fold of the element conversions. */
  lemma ListGather(h: Host, json: Val, elem: Ty)
    requires Iterate(json).Ok?
    ensures var g := Gather(Conversions(h, Iterate(json).value, elem), 0);
      Deserialize(h, json, TList(elem)) == if g.Ok? then Ok(VList(g.value)) else Raise(g.err)
  {
    ListUnfold(h, json, elem);
    ItemsGather(h, TList(elem), Iterate(json).value, 0);
  }

  /** The first element that fails fails the whole list with its own
      exception. */
  lemma ListFirstFailure(h: Host, json: Val, elem: Ty, k: nat)
    requires Iterate(json).Ok? && k < |Iterate(json).value|
    requires Deserialize(h, Iterate(json).value[k], elem).Raise?
    requires forall j :: 0 <= j < k ==> Deserialize(h, Iterate(json).value[j], elem).Ok?
    ensures Deserialize(h, json, TList(elem)) == Deserialize(h, Iterate(json).value[k], elem)
  {
    ListUnfold(h, json, elem);
    var xs := Iterate(json).value;
    ItemsGather(h, TList(elem), xs, 0);
    GatherFirstError(Conversions(h, xs, elem), 0, k);
  }

  // ---------------------------------------------------------------------
  // Unions

  /** Fast path: when some candidate other than `str` is already the type
      of `json` (`isinstance`, so a bool counts as an int and `None` as
      `NoneType`), and no earlier candidate is a generic that `isinstance`
      rejects, `json` is returned unchanged and no conversion is attempted:
      the outcome is the same whatever the host's constructors do. */
  lemma UnionFastPath(h: Host, json: Val, cands: seq<Ty>, i: nat)
    requires i < |cands| && Claims(json, cands[i])
    requires forall j :: 0 <= j < i ==> IsInstance(json, cands[j]).Ok?
    ensures forall h' :: Deserialize(h', json, TUnion(cands)) == Ok(json)
  {
    assert FastPath(json, cands) == Ok(true);
  }

  /** A generic candidate (`List[...]` or a union) met by the `isinstance`
      loop before any candidate claims the value raises `TypeError`. */
  lemma UnionGenericCandidate(h: Host, json: Val, cands: seq<Ty>, i: nat)
    requires i < |cands| && (cands[i].TList? || cands[i].TUnion?)
    requires forall j :: 0 <= j < i ==> !Claims(json, cands[j])
    ensures Deserialize(h, json, TUnion(cands)) == Raise(TypeError)
  {
  }

  /** No candidate decides among `cands[i..j]`. */
  ghost predicate AllRecoverable(h: Host, json: Val, cands: seq<Ty>, i: int, j: int) {
    forall k :: i <= k < j && 0 <= k < |cands| ==> !Deserialize(h, json, cands[k]).Decisive()
  }

  /** One step of the search: a decisive candidate decides, any other
      passes on to the next. */
  lemma TryCandidatesStep(h: Host, json: Val, ty: Ty, i: nat)
    requires ty.TUnion? && i < |ty.cands|
    ensures var attempt := Deserialize(h, json, ty.cands[i]);
      TryCandidates(h, json, ty, i) == if attempt.Decisive() then attempt else TryCandidates(h, json, ty, i + 1)
  {
  }

  /** The first decisive candidate from `i` on decides the search. */
  lemma {:induction false} TryCandidatesFirst(h: Host, json: Val, ty: Ty, i: nat, k: nat)
    requires ty.TUnion? && i <= k < |ty.cands|
    requires Deserialize(h, json, ty.cands[k]).Decisive()
    requires AllRecoverable(h, json, ty.cands, i, k)
    ensures TryCandidates(h, json, ty, i) == Deserialize(h, json, ty.cands[k])
    decreases k - i
  {
    if i < k {
      assert !Deserialize(h, json, ty.cands[i]).Decisive();
      TryCandidatesStep(h, json, ty, i);
      TryCandidatesFirst(h, json, ty, i + 1, k);
    } else {
      TryCandidatesStep(h, json, ty, i);
    }
  }

  /** With no decisive candidate from `i` on, the search raises `ValueError`. */
  lemma {:induction false} TryCandidatesNone(h: Host, json: Val, ty: Ty, i: nat)
    requires ty.TUnion? && i <= |ty.cands|
    requires AllRecoverable(h, json, ty.cands, i, |ty.cands|)
    ensures TryCandidates(h, json, ty, i) == Raise(ValueError)
    decreases |ty.cands| - i
  {
    if i < |ty.cands| {
      assert !Deserialize(h, json, ty.cands[i]).Decisive();
      TryCandidatesStep(h, json, ty, i);
      TryCandidatesNone(h, json, ty, i + 1);
    }
  }

  lemma TryCandidatesSpec(h: Host, json: Val, ty: Ty, i: nat)
    requires ty.TUnion? && i <= |ty.cands|
    ensures var r := TryCandidates(h, json, ty, i);
      && (forall k :: i <= k < |ty.cands| && Deserialize(h, json, ty.cands[k]).Decisive()
                      && AllRecoverable(h, json, ty.cands, i, k)
            ==> r == Deserialize(h, json, ty.cands[k]))
      && (AllRecoverable(h, json, ty.cands, i, |ty.cands|) ==> r == Raise(ValueError))
  {
    forall k | i <= k < |ty.cands| && Deserialize(h, json, ty.cands[k]).Decisive()
               && AllRecoverable(h, json, ty.cands, i, k)
      ensures TryCandidates(h, json, ty, i) == Deserialize(h, json, ty.cands[k])
    {
      TryCandidatesFirst(h, json, ty, i, k);
    }
    if AllRecoverable(h, json, ty.cands, i, |ty.cands|) {
      TryCandidatesNone(h, json, ty, i);
    }
  }

  /** Ordered search: when no candidate claims the value on the fast
      path, the first candidate in declared order whose conversion does
      not raise `ValueError` or `TypeError` decides the outcome (its value,
      or the other exception it raised); if every candidate raises one of
      those two, the union raises `ValueError`. */
  lemma UnionOrderedSearch(h: Host, json: Val, cands: seq<Ty>)
    requires |cands| > 0
    requires forall i :: 0 <= i < |cands| ==> IsInstance(json, cands[i]).Ok? && !Claims(json, cands[i])
    ensures var r := Deserialize(h, json, TUnion(cands));
      && (forall k :: 0 <= k < |cands| && Deserialize(h, json, cands[k]).Decisive()
                      && AllRecoverable(h, json, cands, 0, k)
            ==> r == Deserialize(h, json, cands[k]))
      && (AllRecoverable(h, json, cands, 0, |cands|) ==> r == Raise(ValueError))
  {
    assert FastPath(json, cands) == Ok(false);
    TryCandidatesSpec(h, json, TUnion(cands), 0);
  }
}
