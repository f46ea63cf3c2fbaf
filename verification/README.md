# datalize, modelled in Dafny

datalize converts between dataclasses and the plain data structures that
`json.loads` produces and `json.dumps` accepts. There are two entry points:

- `deserialize(json, target_type=T)` walks a target type annotation. It builds:
  - dataclass instances from dicts;
  - lists element by element;
  - values of unions, by trying each candidate type in turn;
  - enum members, by value or by name;
  - `datetime`s from ISO 8601 strings;
  - everything else (`str`, `int`, `UUID`, ...) by calling the type on the value.
- `serialize(obj)` goes the other way. A dataclass becomes a dict through
  `dataclasses.asdict`, and each top-level value of that dict is serialized
  again. An enum member becomes its serialized value. A UUID becomes its
  32-digit `.hex` string and a datetime its `isoformat()` string. Anything
  else is returned as it is.

The model covers `src/datalize/__init__.py`. It is organised as follows:

- `results.dfy`: `Result` is either a value or the Python exception that
  escapes (`ValueError`, `TypeError`, `KeyError`, ...). This includes
  `OverflowError` from `int(inf)` or from `float` of a huge int, which a
  union does not catch. `Decisive` says whether an outcome ends the union
  search.
- `values.dfy`: a single `Val` datatype for JSON values and the Python objects
  the converter makes (dataclass instances, enum members, UUIDs, datetimes).
  `PyEq` is Python's `==` on these values, applied recursively: bool and int
  compare equal, lists compare item by item, dicts compare by key whatever
  the entry order, and dataclass instances compare field by field. `VObject`
  stands for any other object, such as a class attribute that is a function.
- `types.dfy`: the target types form a closed datatype `Ty`. The reflection
  helpers `get_union_types`, `is_union_type`, `is_list_type` and
  `list_type_argument` become its discriminators and destructors. An enum
  type carries its members and also its other class attributes (`__name__`,
  methods, ...), because `hasattr`/`getattr` find those too.
- `hosts.dfy`: library code the converter calls but does not define. This is
  the `str`/`int`/`float`/`bool` constructors and `datetime`'s ISO parser and
  printer. They are a parameter `Host`, so every property holds for any
  behaviour of them. `Lawful` names the two facts the round trip needs.
- `runtime.dfy`: the parts of Python's object protocol whose failures decide
  which exception escapes: iteration, subscription and `isinstance`.
- `uuid.dfy`: `UUID(hex=...)` parsing and the `.hex` encoding, over a 128-bit
  integer.
- `deserialize.dfy`: `deserialize`, `_deserialize_union` and
  `_deserialize_enum`.
- `serialize.dfy`: `serialize` and the `asdict` recursion it relies on.
- `record_props.dfy` and `collections_props.dfy`: what the dataclass, list and
  union branches promise, proved against the definitions.
- `roundtrip.dfy`:
  - the round trip `deserialize(serialize(x), target_type=T) == x`;
  - when `serialize`'s output is plain JSON.
- `examples.dfy`: the repository's test cases, restated as lemmas.

Behaviour of the code that is easy to miss:

- An input key that is not a field of the dataclass is not ignored:
  `field_types[key]` raises `KeyError` (`RecordFacts.RecordUnknownKey`,
  `Examples.ExtraKeyRaises`).
- `serialize` is shallow. `asdict` copies UUIDs, datetimes and enum members
  nested below a dataclass's top-level fields unchanged, so the result is not
  JSON there (`JsonOutput.SerializeIsShallow`). The round trip still holds for
  these nested members, because `E(member)` returns the member.
- A string that is neither a value nor a member name of an enum, but names
  another attribute of the enum class, returns that attribute:
  `deserialize("__name__", target_type=E)` is `"E"`
  (`Examples.EnumClassAttribute`, `Examples.AlphabetName`).
- A datetime given for a UUID field raises `TypeError`, because
  `datetime.replace` does not take the string arguments `UUID` passes it.
  `None` raises `TypeError` too, because `UUID` then finds none of its
  arguments given. Other non-string objects raise `AttributeError`.
- `Optional[List[int]]` never deserializes. The first loop of
  `_deserialize_union` calls `isinstance(json, List[int])`, which raises
  `TypeError` (`Examples.OptionalListRaises`).

## Model

| member | source | states |
|---|---|---|
| Deserializer.Deserialize | src/datalize/__init__.py:35-65 | A converted dataclass has the target's class and exactly its fields, in declaration order. A converted list has one item per element of the input. An enum target yields a member of that enum or another attribute of its class. UUID and datetime targets yield values of that kind. `NoneType(x)` is always a `TypeError`. |
| Deserializer.FieldIndex | src/datalize/__init__.py:40-42 | `field_types[key]` succeeds exactly for a string key naming a field. A missing hashable key raises `KeyError`; an unhashable key raises `TypeError`. |
| Deserializer.Bind | src/datalize/__init__.py:45 | `target_type(**kwargs)` succeeds exactly when every field has a keyword or a default. Each field takes its keyword, else its default. A missing argument raises `TypeError`. |
| Deserializer.Items | src/datalize/__init__.py:49-52 | A successful list comprehension has one result per remaining element. |
| Deserializer.FastPath | src/datalize/__init__.py:104-107 | The `isinstance` loop returns true exactly when some non-`str` candidate is an instance of the input before any `isinstance` raised. It returns false exactly when no candidate claims the input and none raised. Otherwise it raises `TypeError`. |
| Deserializer.FirstValue | src/datalize/__init__.py:74 | Finds the first enum member whose value equals the input, or shows that none does. |
| Deserializer.FirstName | src/datalize/__init__.py:81-84 | Finds the first enum member with the given name, or shows that none has it. |
| Deserializer.Canonical | src/datalize/__init__.py:84 | `getattr(E, name)` gives the first declared member whose value equals that of the named member. So an alias resolves to its canonical member, and a non-alias to itself. |
| Deserializer.CanonicalIndex | src/datalize/__init__.py:84 | The canonical member is the first member with an equal value. |
| Deserializer.DeserializeEnum | src/datalize/__init__.py:68-84 | Numeric input: converts exactly when some member has an equal value, else raises `ValueError`. A member of the enum is returned as it is. Otherwise the first member by value wins. Failing that, a string is looked up among the class's attributes: a member name gives its member (an alias gives the canonical member), and any other attribute gives its value. A string naming nothing raises `ValueError`. Another non-numeric miss raises `TypeError` from `hasattr`. |
| Deserializer.EnumCall | src/datalize/__init__.py:74-78 | `E(json)` succeeds exactly when `json` is a member of `E` or equals some member's value. It returns the member itself, or the first member with an equal value. Otherwise it raises `ValueError`. |
| Deserializer.EnumAttr | src/datalize/__init__.py:81-84 | `hasattr`/`getattr` on the enum class: a member name gives its canonical member. Another attribute gives its value. A string naming neither raises `ValueError`. |
| Deserializer.KeyStep | src/datalize/__init__.py:42 | A failing `json[key]` raises first, with its own exception. A successful entry is keyed by the string key itself, which names a field of the dataclass. |
| Deserializer.Kwargs | src/datalize/__init__.py:41-44 | The comprehension only adds entries. Every key it adds names a field. |
| Deserializer.TryCandidates | src/datalize/__init__.py:118-123 | With no candidates left the search raises `ValueError`. A `ValueError` or `TypeError` from a candidate never escapes as such: the only recoverable exception the search raises is its own `ValueError`. |
| Deserializer.DeserializeUnion | src/datalize/__init__.py:95-123 | A union without candidates fails its assertion. An input some candidate claims is returned unchanged. A `TypeError` from the `isinstance` loop escapes, and it is the only way the union raises `TypeError`. |
| Deserializer.FromIsoFormat | src/datalize/__init__.py:61-62 | A string is parsed by `datetime.fromisoformat`; a malformed one raises `ValueError`. Any other value raises `TypeError`. |
| Runtime.Iterate | src/datalize/__init__.py:43 | `for key in json` succeeds exactly for a dict, list or str. It yields dict keys, list items, or one-character strings. Anything else raises `TypeError`. |
| Runtime.Lookup | src/datalize/__init__.py:42 | Finds the value under a key exactly when that key is present. |
| Runtime.LookupDistinct | src/datalize/__init__.py:42 | With unique keys, `json[key]` returns the value stored with that key. |
| Runtime.Position | src/datalize/__init__.py:42 | An int or bool key `i` selects a position of a sequence of length `n` exactly when `-n <= i < n`. A non-negative key is the position itself; a negative one counts from the end (`n + i`). Any other key raises `IndexError`. |
| Runtime.Subscript | src/datalize/__init__.py:42 | `json[key]` on a dict with a string key returns the stored value, or raises `KeyError` when the key is absent. |
| Runtime.IsInstance | src/datalize/__init__.py:106 | `isinstance` raises `TypeError` exactly for a subscripted generic such as `List[...]`, and, as before Python 3.10, for `Union[...]`. Otherwise a type claims exactly its own values: `int` also claims bools (a subclass of it), `NoneType` claims only `None`, and a dataclass or enum claims only its own instances or members. |
| Uuid.HexChar | src/datalize/__init__.py:141 | A digit below 16 prints as a lower-case hex character. |
| Uuid.DigitValue | src/datalize/__init__.py:65 | Exactly the hex digits of either case have a value, and that value is below 16. |
| Uuid.ToHex | src/datalize/__init__.py:141 | Prints exactly the requested number of lower-case hex digits. |
| Uuid.FromHex | src/datalize/__init__.py:65 | Reads a number exactly when every character is a hex digit. The result fits the digit count. |
| Uuid.FromToHex | src/datalize/__init__.py:141 | Reading a number printed with k digits gives it back when it fits in k digits. |
| Uuid.ToFromHex | src/datalize/__init__.py:65 | A lower-case hex string reads as a number that prints back as the same string. |
| Uuid.Hex | src/datalize/__init__.py:140-141 | `.hex` is always 32 lower-case hex digits. |
| Uuid.Parse | src/datalize/__init__.py:65 | `UUID(s)` succeeds exactly when, after dropping `urn:`, `uuid:`, surrounding braces and dashes, 32 hex digits remain. Otherwise it raises `ValueError`. |
| Uuid.RemoveAll | src/datalize/__init__.py:65 | `str.replace(pat, '')` never lengthens the string, and after removing a one-character pattern that character no longer occurs. |
| Uuid.StripLeading | src/datalize/__init__.py:65 | The leading half of `strip('{}')` drops exactly the leading run of braces. |
| Uuid.StripTrailing | src/datalize/__init__.py:65 | The trailing half of `strip('{}')` drops exactly the trailing run of braces. |
| Uuid.Normalise | src/datalize/__init__.py:65 | The string `UUID` hands to `int(_, 16)` is no longer than its input and holds no dash. |
| Uuid.RemoveAllConcat | src/datalize/__init__.py:65 | Removing a one-character pattern distributes over concatenation. |
| Uuid.PlainJoin | src/datalize/__init__.py:65 | Joining two strings free of `u` and braces with a dash leaves a string free of them. |
| Uuid.NormaliseDashes | src/datalize/__init__.py:65 | On a string with no `u` and no brace, normalisation only removes the dashes. |
| Uuid.DashGone | src/datalize/__init__.py:65 | A lone dash is removed entirely. |
| Uuid.DropDash | src/datalize/__init__.py:65 | Removing dashes from `a + "-" + b`, for a dash-free `b`, gives `a` without dashes followed by `b`. |
| Uuid.Dashed | tests/test_uuid.py:11 | The 8-4-4-4-12 form of 32 digits is 36 characters long. |
| Uuid.DashedPlain | tests/test_uuid.py:11 | The dashed form of a string free of `u` and braces is free of them too. |
| Uuid.DashedUndashed | tests/test_uuid.py:10-11 | Removing the dashes from the dashed form gives the 32 digits back. |
| Uuid.DashedParse | tests/test_uuid.py:10-11 | `UUID` of the dashed 8-4-4-4-12 form is the same UUID as `UUID` of the bare 32 digits. |
| Uuid.Pow16Is128Bits | src/datalize/__init__.py:65 | 32 hex digits span exactly the 128-bit range of a UUID. |
| Uuid.Pow16Shift | src/datalize/__init__.py:65 | Eight more hex digits multiply the range by 2^32. |
| Uuid.Construct | src/datalize/__init__.py:65 | `UUID(json)` succeeds exactly for a string that parses, giving that UUID. A non-UUID string raises `ValueError`. `None` and a datetime raise `TypeError`. Every other value raises `AttributeError`, having no `replace` method. |
| Uuid.RemoveAbsent | src/datalize/__init__.py:65 | Removing a pattern whose first character never occurs leaves the string unchanged. |
| Uuid.NormalisePlain | src/datalize/__init__.py:65 | A string with no `u`, dash or brace is not altered by normalisation. |
| Uuid.NormaliseHex | src/datalize/__init__.py:65 | A lower-case hex string is not altered by normalisation. |
| Uuid.ParseRejectsNonHex | src/datalize/__init__.py:65 | One non-hex character in a plain string makes `UUID(s)` raise `ValueError`. |
| Uuid.HexRoundTrip | src/datalize/__init__.py:140-141 | `UUID(u.hex) == u` for every UUID. |
| Uuid.CanonicalRoundTrip | src/datalize/__init__.py:140-141 | A 32-digit lower-case hex string is a UUID whose `.hex` is the same string. |
| Serializer.Serialize | src/datalize/__init__.py:126-147 | No dataclass, enum member, UUID or datetime is left at the top of the result. A dataclass becomes a dict keyed by its fields in order. A UUID becomes a string that `UUID` parses back to it. Under the ISO law a datetime becomes a string that parses back to it. `None`, bools, numbers, strings, lists and dicts are returned as they are. |
| Serializer.SerializeField | src/datalize/__init__.py:131-133 | What the loop stores for a field holds no dataclass, enum member, UUID or datetime at its top. |
| Serializer.AsDict | src/datalize/__init__.py:131 | `asdict` turns a dataclass into a dict with one entry per field, in order. It leaves no dataclass at the top. Every value other than dataclasses, lists and dicts is copied unchanged. |
| Serializer.SerializeFieldIsComposition | src/datalize/__init__.py:131-133 | Each field's entry is `serialize` applied to what `asdict` made of it. |
| Serializer.SerializeRecord | src/datalize/__init__.py:130-134 | A dataclass serializes to a dict with one entry per field, in declaration order. Each entry is `serialize(asdict(field value))`. |
| RecordFacts.KeyStepDict | src/datalize/__init__.py:41-44 | For a key of a dict input: an unknown field name raises `KeyError`. A known field yields that field and the conversion of the stored value, or the conversion's exception. |
| RecordFacts.KeyStepConverts | src/datalize/__init__.py:41-44 | One comprehension entry succeeds exactly when its key names a field and its value converts to that field's type. |
| RecordFacts.KwargsCollect | src/datalize/__init__.py:41-44 | The `kwargs` comprehension folds its per-key steps in key order. |
| RecordFacts.CollectOk | src/datalize/__init__.py:41-44 | Building `kwargs` succeeds exactly when every step does. |
| RecordFacts.CollectFirstError | src/datalize/__init__.py:41-44 | The first failing key's exception is the one that escapes. |
| RecordFacts.CollectValues | src/datalize/__init__.py:41-44 | With distinct names, `kwargs` holds exactly the names of the steps, each bound to its step's value. |
| RecordFacts.CollectDict | src/datalize/__init__.py:41-44 | Steps named by a dict's distinct keys build a `kwargs` with exactly those keys, each bound to its step's value. |
| RecordFacts.StepNames | src/datalize/__init__.py:42-43 | A successful step over a dict key is named by that key. |
| RecordFacts.KwargsFromDict | src/datalize/__init__.py:41-44 | A built `kwargs` has exactly the input dict's keys, each bound to the conversion of its value. |
| RecordFacts.RecordUnfold | src/datalize/__init__.py:37-45 | A dict input is converted by building `kwargs` and then calling the constructor. Either step's exception escapes. |
| RecordFacts.KwargsDictOk | src/datalize/__init__.py:41-44 | `kwargs` builds exactly when every entry names a field and converts. |
| RecordFacts.KwargsDictValues | src/datalize/__init__.py:41-44 | A built `kwargs` holds a field exactly when the input supplies it, bound to the converted value. |
| RecordFacts.KwargsDict | src/datalize/__init__.py:41-44 | `kwargs` builds exactly when every entry converts. A field is then present exactly when the input supplies it, with the converted value. |
| RecordFacts.RecordFromDict | src/datalize/__init__.py:37-45 | A dict converts exactly when every entry converts and every field is supplied or defaulted. The result holds the converted value of each supplied field and the default of each absent one. |
| RecordFacts.RecordUnknownKey | src/datalize/__init__.py:42 | A key that is not a field raises `KeyError` when no earlier key failed. |
| RecordFacts.RecordFieldFails | src/datalize/__init__.py:42 | When an entry's value does not convert, that conversion's exception escapes, provided no earlier key failed. |
| RecordFacts.RecordMissingField | src/datalize/__init__.py:45 | A required field that the input omits raises `TypeError`. |
| CollectionFacts.ItemsGather | src/datalize/__init__.py:49-52 | The list comprehension is the fold of the element conversions. |
| CollectionFacts.GatherOk | src/datalize/__init__.py:49-52 | The fold succeeds exactly when every conversion does, keeping the results in order. |
| CollectionFacts.GatherFirstError | src/datalize/__init__.py:49-52 | The first failing element's exception escapes. |
| CollectionFacts.ListUnfold | src/datalize/__init__.py:47-52 | A list target iterates the input, then converts each element. |
| CollectionFacts.ListNotIterable | src/datalize/__init__.py:51 | A non-iterable input to a list target raises `TypeError`. |
| CollectionFacts.DeserializeList | src/datalize/__init__.py:47-52 | A list target converts exactly when every element converts. The result keeps length and order, with each item the element's conversion. |
| CollectionFacts.ListFirstFailure | src/datalize/__init__.py:49-52 | The exception of the first element that fails is the list's exception. |
| CollectionFacts.UnionFastPath | src/datalize/__init__.py:104-107 | When a non-`str` candidate claims the input by `isinstance`, the input is returned unchanged, whatever the constructors do. |
| CollectionFacts.UnionGenericCandidate | src/datalize/__init__.py:104-106 | A `List[...]` candidate reached before any candidate claims the input makes the union raise `TypeError`. |
| CollectionFacts.TryCandidatesFirst | src/datalize/__init__.py:118-122 | When every earlier candidate raises `ValueError` or `TypeError`, the first decisive candidate's outcome is the search's outcome. |
| CollectionFacts.TryCandidatesNone | src/datalize/__init__.py:118-123 | When every remaining candidate raises `ValueError` or `TypeError`, the search raises `ValueError`. |
| CollectionFacts.TryCandidatesSpec | src/datalize/__init__.py:118-123 | The first candidate whose outcome is neither `ValueError` nor `TypeError` decides. If all raise those, the result is `ValueError`. |
| CollectionFacts.UnionOrderedSearch | src/datalize/__init__.py:90-123 | When no candidate claims the input, the candidates are tried in declared order. The first decisive outcome wins; if none is decisive, `ValueError`. |
| RoundTrip.RecordFromAlignedDict | src/datalize/__init__.py:37-45 | A dict whose keys are the fields in order, each value converting, gives the instance holding those conversions. |
| RoundTrip.EmitScalar | src/datalize/__init__.py:146-147 | `None`, bools, numbers and strings are serialized unchanged. |
| RoundTrip.EmitUuid | src/datalize/__init__.py:140-141 | A top-level UUID field becomes its hex string; a deeper one is left as is. |
| RoundTrip.EmitDatetime | src/datalize/__init__.py:143-144 | A top-level datetime field becomes its ISO string; a deeper one is left as is. |
| RoundTrip.EmitMember | src/datalize/__init__.py:137-138 | A top-level enum member becomes its value; a deeper one is left as is. |
| RoundTrip.EmitRecord | src/datalize/__init__.py:130-134 | A nested dataclass becomes the dict `asdict` makes of it. |
| RoundTrip.RoundTripAt | src/datalize/__init__.py:35-147 | Converting back what `serialize` wrote for a value of a supported type gives the value again, at any nesting depth. |
| RoundTrip.EnumRoundTrip | src/datalize/__init__.py:68-84 | An enum member comes back from its value (top level) or from itself (deeper), provided the enum has no aliases. |
| RoundTrip.ListRoundTrip | src/datalize/__init__.py:47-52 | A list of supported values comes back element by element. |
| RoundTrip.RecordRoundTrip | src/datalize/__init__.py:37-45 | A dataclass instance comes back from the dict `asdict` made of it. |
| RoundTrip.OptionalRoundTrip | src/datalize/__init__.py:90-123 | An `Optional[T]` value comes back. `None` is kept by the fast path; any other value comes back through the fast path or through the ordered search. |
| RoundTrip.OptionalShape | src/datalize/__init__.py:98 | An optional has exactly two candidates, one of them `NoneType`; a non-`None` value belongs to the other. |
| RoundTrip.OptionalOfNone | src/datalize/__init__.py:104-107 | `None` is returned unchanged by an optional. |
| RoundTrip.EmitNotNone | src/datalize/__init__.py:126-147 | No value other than `None` serializes to `None`. |
| RoundTrip.ClaimedIsSelf | src/datalize/__init__.py:104-107 | When the wrapped type claims what was written, what was written is the value itself. |
| RoundTrip.OptionalNotClaimed | src/datalize/__init__.py:104-107 | A non-`None` input that the wrapped type does not claim passes the `isinstance` loop of an optional unclaimed. |
| RoundTrip.OptionalSearch | src/datalize/__init__.py:118-122 | A non-`None` input that the wrapped type converts comes back through the ordered search, whichever candidate is first. |
| RoundTrip.EmitLeaf | src/datalize/__init__.py:126-147 | What `serialize` writes for an optional's payload is never `None`. It is the value itself, a string, an enum's scalar value, or a dict. |
| RoundTrip.LeafOrNestedRoundTrip | src/datalize/__init__.py:35-65 | A payload not claimed by the fast path converts back through its own type. |
| RoundTrip.RoundTripRecord | src/datalize/__init__.py:35-147 | `deserialize(serialize(x), target_type=T) == x` for a dataclass instance of `T` whose fields have supported types, given the constructor and ISO laws. |
| JsonOutput.JsonAt | src/datalize/__init__.py:126-147 | A value whose type needs no encoding below the top level is written as plain JSON. |
| JsonOutput.SerializeIsJson | src/datalize/__init__.py:126-134 | `serialize` gives plain JSON for such a dataclass instance. |
| JsonOutput.SerializeIsShallow | src/datalize/__init__.py:130-134 | A UUID inside a nested dataclass is left as a UUID object, so the output is not JSON. |
| Examples.EnumUnfold | src/datalize/__init__.py:57-58 | An enum target is handled by the enum helper. |
| Examples.IntEnumMissingValue | tests/test_enum.py:35-37 | `5` is not a `TrollCount` value, so it raises `ValueError`. |
| Examples.IntEnumUnknownString | tests/test_enum.py:39-45 | `"3"` and `"three"` are neither values nor names of `TrollCount`, so they raise `ValueError`. |
| Examples.EnumByUniqueName | src/datalize/__init__.py:81-84 | A string that is no member's value but names a non-alias member gives that member. |
| Examples.CanonicalSelf | src/datalize/__init__.py:84 | `getattr` on the name of a member whose value no earlier member holds gives that member itself. |
| Examples.EnumByFirstValue | src/datalize/__init__.py:77-78 | The first member with an equal value is returned. |
| Examples.EnumNoMatch | src/datalize/__init__.py:73-83 | A number matching no value, or a string matching no value, no member name and no other class attribute, raises `ValueError`. |
| Examples.EnumClassAttribute | src/datalize/__init__.py:81-84 | A string that is no value and no member name, but names another class attribute, gives that attribute's value. |
| Examples.AlphabetName | src/datalize/__init__.py:81-84 | `"__name__"` under `Alphabet` gives the class name `"Alphabet"`, not an error. |
| Examples.IntEnumByValue | tests/test_enum.py:30-31 | `3` gives `TrollCount.many`, whatever the class's other attributes. |
| Examples.TrollCountNameOnly | tests/test_enum.py:32-33 | `"many"` is no `TrollCount` value, and the members before `many` hold other values. |
| Examples.IntEnumByName | tests/test_enum.py:32-33 | `"many"` gives `TrollCount.many`, whatever the class's other attributes. |
| Examples.StringEnumByValue | tests/test_enum.py:22-23 | `"gamma"` gives `Alphabet.g`, whatever the class's other attributes. |
| Examples.AlphabetNameOnly | tests/test_enum.py:24-25 | `"g"` is no `Alphabet` value, and the members before `g` hold other values. |
| Examples.StringEnumByName | tests/test_enum.py:24-25 | `"g"` gives `Alphabet.g`, whatever the class's other attributes. |
| Examples.EnumSerialized | tests/test_enum.py:21-29 | `TrollCount.many` serializes to `3` and `Alphabet.g` to `"gamma"`. |
| Examples.UuidUnfold | src/datalize/__init__.py:65 | A UUID target calls `UUID(json)`. |
| Examples.UuidTooShort | tests/test_uuid.py:15-16 | `"abc"` raises `ValueError`. |
| Examples.ShortRejected | tests/test_uuid.py:15-16 | `"abc"` keeps length 3 through normalisation, so the UUID parse of it fails with `ValueError`. |
| Examples.UuidNotHex | tests/test_uuid.py:18-19 | A 32-character string ending in `x` raises `ValueError`. |
| Examples.NotHexPlain | tests/test_uuid.py:18-19 | That string has 32 characters, none of which normalisation removes, and its last is not a hex digit. |
| Uuid.DashedConstruct | tests/test_uuid.py:10-11 | `UUID(json)` of the dashed form equals `UUID(json)` of the bare 32 digits. |
| Examples.UuidDecoded | tests/test_uuid.py:10-12 | 32 lower-case hex digits deserialize to the UUID whose `.hex` they are. |
| Examples.UuidDashedSame | tests/test_uuid.py:10-12 | The dashed form deserializes to the same result as the bare digits. |
| Examples.UuidStringRoundTrip | tests/test_uuid.py:8-13 | Any 32-digit lower-case hex string deserializes to a UUID that serializes back to the same string. Its dashed 8-4-4-4-12 form deserializes to the same UUID. |
| Examples.OptionalListRaises | src/datalize/__init__.py:104-107 | `Optional[List[int]]` raises `TypeError` for every input. |
| Examples.UnionKeepsNative | tests/test_dataclass.py:96-107 | `Union[float, int]` keeps an int and a float as they are. |
| Examples.UnionKeepsNone | tests/test_dataclass.py:131-134 | `Union[float, int, None]` keeps `None`. |
| Examples.UnionBoolAsInt | src/datalize/__init__.py:104-107 | `True` under `Union[str, int]` is claimed by `int` and kept, instead of becoming the string `"True"`. |
| Examples.UnionOverflowEscapes | src/datalize/__init__.py:118-122 | When `int(x)` raises `OverflowError` for a float `x` (as for infinity), `Union[int, str]` raises `OverflowError` and never tries `str`. |
| Examples.UnionStrInt | tests/test_dataclass.py:77-87 | `Union[str, int]` keeps `123` on the fast path and gives `"123"` back through `str`. |
| Examples.UnionStringRejected | tests/test_dataclass.py:119-122 | `"abc123"` under `Union[float, int]` raises `ValueError` when both constructors refuse it. |
| Examples.SimpleSerialized | tests/test_dataclass.py:13-16 | `Simple(num=12)` serializes to `{"num": 12}`. |
| Examples.SimpleDeserialized | tests/test_dataclass.py:13-17 | `{"num": 12}` deserializes to `Simple(num=12)`. |
| Examples.AbsentOptional | tests/test_dataclass.py:59-67 | An absent optional field without a default raises `TypeError`. With a default of `None`, it takes the default. |
| Examples.AbsentOptionalRaises | tests/test_dataclass.py:59-64 | `{"name": "x"}` under `HasOption`, whose `extra` has no default, raises `TypeError`. |
| Examples.AbsentOptionalDefault | tests/test_dataclass.py:66-67 | `{"name": "x"}` under `HasDefaultOption` gives `extra=None` from the default. |
| Examples.ExtraKeyRaises | src/datalize/__init__.py:42 | A key that is not a field of `Simple` raises `KeyError`. |

## Left out

- Reflection is not modelled: `is_dataclass`, `fields`, `__origin__`, `__args__` and `issubclass`. Target types are the closed datatype `Ty` instead, so a type outside it cannot be expressed.
- Dataclass features beyond plain fields with an optional default are not modelled: `default_factory`, `init=False`, `InitVar`, inheritance, and `__post_init__`.
- `asdict`'s handling of tuples and its deep copy of other values are not modelled. Values are immutable here.
- Nested unions (`Union[A, Union[B, C]]`) are not modelled, because Python flattens them when the annotation is written.
- Values.PyEq: float equality is not modelled. Floats are opaque bit patterns here, so an enum value lookup compares a float only with the identical float, and `1.0 == 1` does not hold.
- Values.PyEq: datetimes compare structurally. Two aware datetimes at different UTC offsets that denote the same instant are equal in Python but not here.
- The constructors `str`, `int`, `float` and `bool` are parameters of the model rather than definitions, because their string grammars belong to Python itself. The round trip assumes only that each returns a value of its own type unchanged.
- `datetime.fromisoformat` and `isoformat` are parameters of the model, because the ISO 8601 grammar, time zones and the omission of zero microseconds belong to `datetime`. The round trip assumes only that parsing what the printer wrote gives the same instant.
- Uuid.Parse: does not model the leniency of `int(hex, 16)` after normalisation. That covers surrounding whitespace, underscores, sign characters, a `0x`/`0X` prefix and non-ASCII decimal digits. Every string it accepts is also accepted by Python.
- Runtime.IsInstance: treats `isinstance(x, Union[...])` as raising `TypeError`, as Python did before 3.10. The case never arises, because a union's candidates are never unions themselves.
- `UUID(...)` with keyword arguments other than a hex string (bytes, fields, int) is not modelled, because `deserialize` passes only the JSON value.
- The `SyntaxWarning` for unions containing `str` is not modelled, because it has no effect on the result.
- The messages carried by exceptions are not modelled; only the exception class is.
- RoundTrip.RoundTripRecord: covers a bare `UUID` or `datetime` field only at the top level of the dataclass. Deeper, `serialize` leaves such a value as an object, and a bare `UUID` or `datetime` target cannot convert an object back, so those positions are outside the supported types. An `Optional[UUID]` or `Optional[datetime]` is covered at any depth: a serialized string goes back through the ordered search, and an object left by `serialize` is claimed by the fast path and returned unchanged. Enum members are covered at any depth.
- RoundTrip.EnumRoundTrip: requires an enum without aliases and with scalar values, because an alias name deserializes to its canonical member.
- `example.py` (a usage demonstration) and `setup.py` (packaging) are not part of this model.
