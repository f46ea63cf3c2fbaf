/** What `deserialize` promises for dataclasses given a dict. */
module RecordFacts {
  import opened Results
  import opened Values
  import opened Types
  import opened Hosts
  import opened Runtime
  import opened Deserializer

  /** Entry `j` of the input names field `i` and converts against its type. */
  ghost predicate EntryConverts(h: Host, es: seq<(string, Val)>, fs: seq<Field>, j: int) {
    0 <= j < |es| &&
    exists i :: 0 <= i < |fs| && fs[i].name == es[j].0 && Deserialize(h, es[j].1, fs[i].ty).Ok?
  }

  /** Some field of `fs` is called `name`. */
  predicate IsField(fs: seq<Field>, name: string) {
    exists i :: 0 <= i < |fs| && fs[i].name == name
  }

  /** The input has a key `name`. */
  ghost predicate Supplied(es: seq<(string, Val)>, name: string) {
    exists j :: 0 <= j < |es| && es[j].0 == name
  }

  /** One dict entry, as a step of the keyword comprehension: the field it
      names, converted, or `KeyError` when it names none. */
  lemma KeyStepDict(h: Host, es: seq<(string, Val)>, ty: Ty, j: nat)
    requires ty.TRecord? && DistinctKeys(es) && DistinctNames(ty.fields) && j < |es|
    ensures var r := KeyStep(h, VDict(es), ty, VStr(es[j].0));
      && (!IsField(ty.fields, es[j].0) ==> r == Raise(KeyError))
      && (forall i :: 0 <= i < |ty.fields| && ty.fields[i].name == es[j].0 ==>
            r == (match Deserialize(h, es[j].1, ty.fields[i].ty)
                  case Ok(v) => Ok((es[j].0, v))
                  case Raise(e) => Raise(e)))
  {
    LookupDistinct(es, j);
    var fi := FieldIndex(ty.fields, VStr(es[j].0));
    if fi.Ok? {
      assert ty.fields[fi.value].name == es[j].0;
    } else {
      forall i | 0 <= i < |ty.fields| ensures ty.fields[i].name != es[j].0 {
      }
    }
  }

  /** An entry passes its comprehension step exactly when it converts. */
  lemma KeyStepConverts(h: Host, es: seq<(string, Val)>, ty: Ty, j: nat)
    requires ty.TRecord? && DistinctKeys(es) && DistinctNames(ty.fields) && j < |es|
    ensures KeyStep(h, VDict(es), ty, VStr(es[j].0)).Ok? <==> EntryConverts(h, es, ty.fields, j)
  {
    KeyStepDict(h, es, ty, j);
    if !IsField(ty.fields, es[j].0) {
      forall i | 0 <= i < |ty.fields| ensures ty.fields[i].name != es[j].0 {
      }
    }
  }

  /** The keyword comprehension with its steps already computed: the
      first failing step stops it, and a later key overwrites an earlier
      one. */
  function Collect(steps: seq<Result<(string, Val)>>, i: nat, acc: map<string, Val>)
    : (r: Result<map<string, Val>>)
    requires i <= |steps|
    decreases |steps| - i
  {
    if i == |steps| then Ok(acc)
    else if steps[i].Raise? then Raise(steps[i].err)
    else Collect(steps, i + 1, acc[steps[i].value.0 := steps[i].value.1])
  }

  /** Every step of the comprehension over `keys`. */
  function Steps(h: Host, json: Val, ty: Ty, keys: seq<Val>): (r: seq<Result<(string, Val)>>)
    requires ty.TRecord?
    ensures |r| == |keys| && forall j :: 0 <= j < |keys| ==> r[j] == KeyStep(h, json, ty, keys[j])
  {
    seq(|keys|, j requires 0 <= j < |keys| => KeyStep(h, json, ty, keys[j]))
  }

  /** `Kwargs` is `Collect` over its steps. */
  lemma {:induction false} KwargsCollect(h: Host, json: Val, ty: Ty, keys: seq<Val>, i: nat,
                                         acc: map<string, Val>)
    requires ty.TRecord? && i <= |keys|
    ensures Kwargs(h, json, ty, keys, i, acc) == Collect(Steps(h, json, ty, keys), i, acc)
    decreases |keys| - i
  {
    if i < |keys| {
      var step := KeyStep(h, json, ty, keys[i]);
      assert Kwargs(h, json, ty, keys, i, acc)
          == if step.Ok? then Kwargs(h, json, ty, keys, i + 1, acc[step.value.0 := step.value.1])
             else Raise(step.err);
      if step.Ok? {
        KwargsCollect(h, json, ty, keys, i + 1, acc[step.value.0 := step.value.1]);
      }
    }
  }

  /** The comprehension succeeds exactly when every step does. */
  lemma {:induction false} CollectOk(steps: seq<Result<(string, Val)>>, i: nat, acc: map<string, Val>)
    requires i <= |steps|
    ensures Collect(steps, i, acc).Ok? <==> forall j :: i <= j < |steps| ==> steps[j].Ok?
    decreases |steps| - i
  {
    if i < |steps| && steps[i].Ok? {
      CollectOk(steps, i + 1, acc[steps[i].value.0 := steps[i].value.1]);
    }
  }

  /** The comprehension stops at the first step that raises, with its exception. */
  lemma {:induction false} CollectFirstError(steps: seq<Result<(string, Val)>>, i: nat,
                                             acc: map<string, Val>, k: nat)
    requires i <= k < |steps| && steps[k].Raise?
    requires forall l :: i <= l < k ==> steps[l].Ok?
    ensures Collect(steps, i, acc) == Raise(steps[k].err)
    decreases |steps| - i
  {
    if i < k {
      CollectFirstError(steps, i + 1, acc[steps[i].value.0 := steps[i].value.1], k);
    }
  }

  /** When every step succeeds with distinct names new to `acc`, the
      comprehension adds exactly those names to `acc`, each bound to the
      value of its step. */
  lemma {:induction false} CollectValues(steps: seq<Result<(string, Val)>>, i: nat, acc: map<string, Val>)
    requires i <= |steps|
    requires forall j :: i <= j < |steps| ==> steps[j].Ok?
    requires forall j, l :: i <= j < l < |steps| ==> steps[j].value.0 != steps[l].value.0
    requires forall j :: i <= j < |steps| ==> steps[j].value.0 !in acc
    ensures var r := Collect(steps, i, acc);
      && r.Ok?
      && (forall k :: k in r.value <==> k in acc || exists j :: i <= j < |steps| && steps[j].value.0 == k)
      && (forall k :: k in acc ==> r.value[k] == acc[k])
      && (forall j :: i <= j < |steps| ==> steps[j] == Ok((steps[j].value.0, r.value[steps[j].value.0])))
    decreases |steps| - i
  {
    if i < |steps| {
      CollectValues(steps, i + 1, acc[steps[i].value.0 := steps[i].value.1]);
    }
  }

  /** Steps named by a dict's distinct keys collect into a map with
      exactly those keys, each bound to the value of its step. */
  lemma CollectDict(steps: seq<Result<(string, Val)>>, es: seq<(string, Val)>)
    requires |steps| == |es| && DistinctKeys(es)
    requires forall j :: 0 <= j < |es| ==> steps[j].Ok? && steps[j].value.0 == es[j].0
    ensures Collect(steps, 0, map[]).Ok?
    ensures var m := Collect(steps, 0, map[]).value;
      && (forall k :: k in m <==> exists j :: 0 <= j < |es| && es[j].0 == k)
      && (forall j :: 0 <= j < |es| ==> steps[j] == Ok((es[j].0, m[es[j].0])))
  {
    CollectValues(steps, 0, map[]);
    var m := Collect(steps, 0, map[]).value;
    forall k ensures k in m <==> exists j :: 0 <= j < |es| && es[j].0 == k {
      if k in m {
        var j :| 0 <= j < |steps| && steps[j].value.0 == k;
        assert es[j].0 == k;
      }
      if exists j :: 0 <= j < |es| && es[j].0 == k {
        var j :| 0 <= j < |es| && es[j].0 == k;
        assert steps[j].value.0 == k;
      }
    }
  }

  /** A step over a dict key that succeeds is named by that key. */
  lemma StepNames(h: Host, es: seq<(string, Val)>, ty: Ty)
    requires ty.TRecord?
    ensures var steps := Steps(h, VDict(es), ty, DictKeys(es));
      forall j :: 0 <= j < |es| && steps[j].Ok? ==> steps[j].value.0 == es[j].0
  {
  }

  /** The dict's own keys name the fields the comprehension fills in. */
  lemma KwargsFromDict(h: Host, es: seq<(string, Val)>, ty: Ty)
    requires ty.TRecord? && DistinctKeys(es) && DistinctNames(ty.fields)
    requires Kwargs(h, VDict(es), ty, DictKeys(es), 0, map[]).Ok?
    ensures var m := Kwargs(h, VDict(es), ty, DictKeys(es), 0, map[]).value;
      && (forall k :: k in m <==> exists j :: 0 <= j < |es| && es[j].0 == k)
      && (forall j :: 0 <= j < |es| ==> KeyStep(h, VDict(es), ty, VStr(es[j].0)) == Ok((es[j].0, m[es[j].0])))
  {
    var steps := Steps(h, VDict(es), ty, DictKeys(es));
    KwargsCollect(h, VDict(es), ty, DictKeys(es), 0, map[]);
    CollectOk(steps, 0, map[]);
    StepNames(h, es, ty);
    CollectDict(steps, es);
  }

  /** `deserialize` on a dataclass and a dict: the keyword comprehension
      over the dict's keys, then the constructor. */
  lemma RecordUnfold(h: Host, name: string, fs: seq<Field>, es: seq<(string, Val)>)
    ensures var ty := TRecord(name, fs);
      Deserialize(h, VDict(es), ty)
      == match Kwargs(h, VDict(es), ty, DictKeys(es), 0, map[])
         case Raise(e) => Raise(e)
         case Ok(kw) =>
           (match Bind(fs, kw)
            case Raise(e) => Raise(e)
            case Ok(vals) => Ok(VRecord(name, vals)))
  {
  }

  /** The keyword arguments are built exactly when every entry converts. */
  lemma KwargsDictOk(h: Host, name: string, fs: seq<Field>, es: seq<(string, Val)>)
    requires DistinctKeys(es) && DistinctNames(fs)
    ensures Kwargs(h, VDict(es), TRecord(name, fs), DictKeys(es), 0, map[]).Ok?
            <==> forall j :: 0 <= j < |es| ==> EntryConverts(h, es, fs, j)
  {
    var ty := TRecord(name, fs);
    var json := VDict(es);
    KwargsCollect(h, json, ty, DictKeys(es), 0, map[]);
    CollectOk(Steps(h, json, ty, DictKeys(es)), 0, map[]);
    forall j | 0 <= j < |es|
      ensures KeyStep(h, json, ty, DictKeys(es)[j]).Ok? <==> EntryConverts(h, es, fs, j)
    {
      KeyStepConverts(h, es, ty, j);
    }
  }

  /** Built keyword arguments hold exactly the supplied fields, each bound
      to its entry's converted value. */
  lemma KwargsDictValues(h: Host, name: string, fs: seq<Field>, es: seq<(string, Val)>)
    requires DistinctKeys(es) && DistinctNames(fs)
    requires Kwargs(h, VDict(es), TRecord(name, fs), DictKeys(es), 0, map[]).Ok?
    ensures var kw := Kwargs(h, VDict(es), TRecord(name, fs), DictKeys(es), 0, map[]).value;
      forall i :: 0 <= i < |fs| ==>
        && (fs[i].name in kw <==> Supplied(es, fs[i].name))
        && (forall j :: 0 <= j < |es| && es[j].0 == fs[i].name ==>
              Deserialize(h, es[j].1, fs[i].ty) == Ok(kw[fs[i].name]))
  {
    var ty := TRecord(name, fs);
    var kw := Kwargs(h, VDict(es), ty, DictKeys(es), 0, map[]).value;
    KwargsFromDict(h, es, ty);
    forall i, j | 0 <= i < |fs| && 0 <= j < |es| && es[j].0 == fs[i].name
      ensures Deserialize(h, es[j].1, fs[i].ty) == Ok(kw[fs[i].name])
    {
      KeyStepDict(h, es, ty, j);
    }
  }

  /** The keyword arguments built from a dict: present exactly when every
      entry converts, holding exactly the dict's keys, each bound to its
      converted value. */
  lemma KwargsDict(h: Host, name: string, fs: seq<Field>, es: seq<(string, Val)>)
    requires DistinctKeys(es) && DistinctNames(fs)
    ensures var kw := Kwargs(h, VDict(es), TRecord(name, fs), DictKeys(es), 0, map[]);
      && (kw.Ok? <==> forall j :: 0 <= j < |es| ==> EntryConverts(h, es, fs, j))
      && (kw.Ok? ==> forall i :: 0 <= i < |fs| ==>
            && (fs[i].name in kw.value <==> Supplied(es, fs[i].name))
            && (forall j :: 0 <= j < |es| && es[j].0 == fs[i].name ==>
                  Deserialize(h, es[j].1, fs[i].ty) == Ok(kw.value[fs[i].name])))
  {
    KwargsDictOk(h, name, fs, es);
    if Kwargs(h, VDict(es), TRecord(name, fs), DictKeys(es), 0, map[]).Ok? {
      KwargsDictValues(h, name, fs, es);
    }
  }

  /** A dict converts to the dataclass exactly when every key names a
      field and converts against that field's type, and every field
      without a default is given. The instance then holds the fields in
      declaration order: a given field holds its converted value and an
      absent one its default. */
  lemma RecordFromDict(h: Host, name: string, fs: seq<Field>, es: seq<(string, Val)>)
    requires DistinctKeys(es) && DistinctNames(fs)
    ensures var r := Deserialize(h, VDict(es), TRecord(name, fs));
      && (r.Ok? <==>
            && (forall j :: 0 <= j < |es| ==> EntryConverts(h, es, fs, j))
            && (forall i :: 0 <= i < |fs| ==> fs[i].default.Some? || Supplied(es, fs[i].name)))
      && (r.Ok? ==>
            && r.value.VRecord? && r.value.cls == name && |r.value.fields| == |fs|
            && forall i :: 0 <= i < |fs| ==>
                 && r.value.fields[i].0 == fs[i].name
                 && (forall j :: 0 <= j < |es| && es[j].0 == fs[i].name ==>
                       Deserialize(h, es[j].1, fs[i].ty) == Ok(r.value.fields[i].1))
                 && (!Supplied(es, fs[i].name) ==> fs[i].default == Some(r.value.fields[i].1)))
  {
    RecordUnfold(h, name, fs, es);
    KwargsDict(h, name, fs, es);
  }

  /** A key that names no field raises `KeyError` (it is not ignored),
      provided every earlier key converted. */
  lemma RecordUnknownKey(h: Host, name: string, fs: seq<Field>, es: seq<(string, Val)>, k: nat)
    requires DistinctKeys(es) && DistinctNames(fs) && k < |es|
    requires forall j :: 0 <= j < k ==> EntryConverts(h, es, fs, j)
    requires forall i :: 0 <= i < |fs| ==> fs[i].name != es[k].0
    ensures Deserialize(h, VDict(es), TRecord(name, fs)) == Raise(KeyError)
  {
    var ty := TRecord(name, fs);
    KeyStepDict(h, es, ty, k);
    assert !IsField(fs, es[k].0);
    forall j | 0 <= j < k ensures KeyStep(h, VDict(es), ty, DictKeys(es)[j]).Ok? {
      KeyStepConverts(h, es, ty, j);
    }
    KwargsCollect(h, VDict(es), ty, DictKeys(es), 0, map[]);
    CollectFirstError(Steps(h, VDict(es), ty, DictKeys(es)), 0, map[], k);
  }

  /** A value that fails to convert makes the whole record fail with the
      same exception, provided every earlier key converted. */
  lemma RecordFieldFails(h: Host, name: string, fs: seq<Field>, es: seq<(string, Val)>, k: nat, i: nat)
    requires DistinctKeys(es) && DistinctNames(fs) && k < |es| && i < |fs|
    requires forall j :: 0 <= j < k ==> EntryConverts(h, es, fs, j)
    requires fs[i].name == es[k].0 && Deserialize(h, es[k].1, fs[i].ty).Raise?
    ensures Deserialize(h, VDict(es), TRecord(name, fs)) == Deserialize(h, es[k].1, fs[i].ty)
  {
    var ty := TRecord(name, fs);
    KeyStepDict(h, es, ty, k);
    forall j | 0 <= j < k ensures KeyStep(h, VDict(es), ty, DictKeys(es)[j]).Ok? {
      KeyStepConverts(h, es, ty, j);
    }
    KwargsCollect(h, VDict(es), ty, DictKeys(es), 0, map[]);
    CollectFirstError(Steps(h, VDict(es), ty, DictKeys(es)), 0, map[], k);
  }

  /** A field without a default that the input does not give is a missing
      constructor argument: `TypeError`. */
  lemma RecordMissingField(h: Host, name: string, fs: seq<Field>, es: seq<(string, Val)>, i: nat)
    requires DistinctKeys(es) && DistinctNames(fs) && i < |fs|
    requires forall j :: 0 <= j < |es| ==> EntryConverts(h, es, fs, j)
    requires fs[i].default.None? && !Supplied(es, fs[i].name)
    ensures Deserialize(h, VDict(es), TRecord(name, fs)) == Raise(TypeError)
  {
    RecordUnfold(h, name, fs, es);
    KwargsDict(h, name, fs, es);
  }
}
