# ECS logging utilities: a verified model

A Dafny model of the four record-shaping helpers of `ecs_logging._utils`. The
Python logging handler uses them to turn a log record into Elastic Common
Schema (ECS) JSON:

- `flatten_dict` collapses a nested mapping, whose keys may contain dots, into
  one level keyed by full dot-joined paths. Lists are opaque leaves. Two
  leaves that reach the same path raise
  `ValueError("Duplicate entry for '<path>' with different nesting")`.
- `de_dot(path, value)` wraps `value` in one single-key mapping per segment
  of the dotted path.
- `normalize_dict` is the reverse of flattening. It flattens, normalizes
  every leaf (mappings inside lists too), de-dots each path and deep-merges
  the results into one fully nested mapping.
- `json_dumps` writes compact JSON (`,` and `:` with no spaces) in a fixed
  field order: `@timestamp`, then `log.level`, then `message`, then the rest.
  `log.level` is taken from a nested `{"log": {"level": …}}` or from a literal
  `"log.level"` key. What is left of `log` stays nested and disappears when
  empty.

The module `ecs_logging/_utils.py` is not part of this model's sources. The
behaviour is fixed by the assertions of `tests/test_utils.py`, and each of
them is a lemma here (modules `TestCases` and `DumpCases`). The general
properties below are proved for every input they name. For `normalize_dict`,
the properties of a successful result are paired with the exact condition
for success, `NormalForm.NormalizeObjectOk`.

Layout:

| file | module | contents |
|---|---|---|
| `values.dfy` | `Values` | `Value`/`Member` datatypes (a mapping is an insertion-ordered member list), `Option`, `Result`, `Error`, lookup/update/remove, the duplicate-entry message |
| `paths.dfy` | `Paths` | splitting a dotted path into segments and joining them back |
| `flatten.dfy` | `Flattening` | `flatten_dict` as an accumulating walk, its reference definition (`Leaves`) and its properties |
| `dedot.dfy` | `DeDotting` | `de_dot` and its relation to flattening |
| `normalize.dfy` | `Normalizing` | deep merge and `normalize_dict`, fully-nested and leaf-preservation results |
| `normalform.dfy` | `NormalForm` | when `normalize_dict` succeeds, and which mappings it leaves unchanged |
| `json.dfy` | `Json` | the compact JSON writer and a reader that inverts it |
| `ecs.dfy` | `EcsJson` | the ECS field order of `json_dumps` and its properties |
| `cases.dfy` | `TestCases` | the `flatten_dict`, `de_dot` and `normalize_dict` assertions |
| `dumps.dfy` | `DumpCases` | the `json_dumps` assertions |

## Model

| member | source | states |
|---|---|---|
| Flattening.Flatten | tests/test_utils.py:22-35 | Succeeds exactly when no two leaves share a full path, and then returns every leaf at its dot-joined path, in input order, with no mapping values left. Otherwise it returns `DuplicateEntry` for a path that occurs twice among the leaves. |
| Flattening.FlattenIntoSpec | tests/test_utils.py:22-35 | The accumulating walk is the reference outcome over the leaves: all leaves kept, or the first repeated path reported. |
| Flattening.FlattenNestedIsDotted | tests/test_utils.py:23-28 | `{k1: {k2: v}, …}` and `{"k1.k2": v, …}` flatten to the same result, success or error. |
| Flattening.LeavesOfFlat | tests/test_utils.py:24-25 | Members that hold no mapping (lists included) are their own leaves, unchanged. |
| Flattening.FlattenIdempotent | tests/test_utils.py:23-25 | Flattening a flattened mapping gives it back. |
| Flattening.LeavesSize | tests/test_utils.py:23-25 | Flattening never makes a mapping larger. |
| Flattening.Leaves | tests/test_utils.py:22-25 | The reference list of leaves: every member's value is a non-mapping, each at its full path. |
| Paths.Split | tests/test_utils.py:39 | A path has at least one segment, no segment holds a dot, and a dot-free path is its own only segment. |
| Paths.Join | tests/test_utils.py:39 | The joined text is dot-free exactly when there is at most one segment and that segment is dot-free. |
| Paths.JoinSplit | tests/test_utils.py:39 | Joining the segments of a path with dots gives back the path. |
| Paths.SplitJoin | tests/test_utils.py:39 | Splitting a join of dot-free segments gives back the segments. |
| DeDotting.Wrap | tests/test_utils.py:39 | The wrapped value is reached by following the segments from the outside in. |
| DeDotting.DeDot | tests/test_utils.py:39 | The value sits unchanged at the path's segments, and every mapping on the way holds exactly one key, the next segment. |
| DeDotting.WrapSingleKeys | tests/test_utils.py:39 | Every level of the wrapping is a single-key mapping keyed by its segment. |
| DeDotting.FlattenDeDot | tests/test_utils.py:39 | `de_dot(path, v)` flattens exactly as `{path: v}` does, so de-dotting undoes flattening. |
| Normalizing.Normalize | tests/test_utils.py:42-49 | A normalized value is fully nested (no dotted key, lists included), and only a mapping normalizes to a mapping. |
| Normalizing.NormalizeObject | tests/test_utils.py:42-45 | `normalize_dict` gives a fully nested mapping, and a flattening conflict comes back unchanged as its error. |
| Normalizing.DeepMerge | tests/test_utils.py:43-45 | A deep merge can only fail with `TypeMismatch`. |
| Normalizing.DeepMergeKeys | tests/test_utils.py:43-45 | A successful deep merge has the keys of both sides and no others. |
| Normalizing.MergeAll | tests/test_utils.py:43-45 | Merging the de-dotted leaves can only fail with `TypeMismatch`. |
| Normalizing.MergeAllKeys | tests/test_utils.py:43-45 | A successful merge has as top-level keys exactly the keys already present and the first segments of the leaves' paths. |
| Normalizing.MergeAllNested | tests/test_utils.py:43-45 | Deep-merging de-dotted fully nested leaves keeps the result fully nested. |
| Normalizing.MergeAllLeaves | tests/test_utils.py:43-45 | Deep-merging de-dotted leaves adds exactly those leaves, each at its path, and loses none. |
| Normalizing.NormalizePlain | tests/test_utils.py:48-49 | A value holding no mapping (a scalar, or a list of scalars) normalizes to itself. |
| Normalizing.NormalizeThenFlatten | tests/test_utils.py:42-45 | Flattening a normalized mapping gives the flattened input with each leaf normalized, up to order. |
| Normalizing.NormalizeThenFlattenPlain | tests/test_utils.py:42-49 | When no list holds a mapping, flattening the normalized mapping gives the flattened input, up to order. |
| NormalForm.NormalizeObjectOk | tests/test_utils.py:42-45 | `normalize_dict` succeeds exactly when flattening succeeds, every leaf normalizes and no leaf's path is a segment-wise prefix of another's. A prefix clash fails with `TypeMismatch`. |
| NormalForm.MergeAllOk | tests/test_utils.py:43-45 | Merging de-dotted leaves succeeds exactly when each fits into what is there already and no leaf's path is a prefix of another's. |
| NormalForm.NormalizeFixedPoint | tests/test_utils.py:42-49 | A fully nested mapping with no empty mapping under any key normalizes to itself. |
| NormalForm.EmptyMappingDropped | tests/test_utils.py:42-45 | `{k: {}}` normalizes to `{}`: an empty mapping leaves no leaf and disappears. |
| NormalForm.PrefixClash | tests/test_utils.py:42-45 | `{"a": 1, "a.b": 2}` flattens without conflict but fails to normalize with `TypeMismatch("a")`. |
| Json.Encode | tests/test_utils.py:55-88 | The compact text of a value is never empty. |
| Json.EncodeStart | tests/test_utils.py:55-88 | The text opens with `{` exactly for a mapping, `[` exactly for a list and `"` exactly for a string, never with a closing bracket, and a mapping's text ends with `}`. |
| Json.NatTextValue | tests/test_utils.py:64 | The decimal text of a natural number reads back as that number. |
| Json.ReadEncoded | tests/test_utils.py:55-88 | Reading the compact text of any escape-free value gives back the value and leaves the following text untouched. |
| Json.DecodeEncode | tests/test_utils.py:55-88 | `Decode(Encode(v)) == Some(v)` for every escape-free value: the writer loses nothing. |
| EcsJson.JsonDumps | tests/test_utils.py:55-88 | The written text is a braced JSON object. |
| EcsJson.PopLevel | tests/test_utils.py:56-61 | A level is taken exactly when there is a nested `log.level` or a literal `"log.level"` key; without a nested one, no literal `"log.level"` key is left behind. |
| EcsJson.EcsFieldsKeys | tests/test_utils.py:55-88 | Every output key is an input key or `log.level`. |
| EcsJson.EcsFieldsUnique | tests/test_utils.py:55-88 | With distinct input keys and at most one source for `log.level`, the output keys are distinct. |
| EcsJson.EcsFieldsLookup | tests/test_utils.py:55-88 | Looking a key up in the output looks in the promoted fields first, then in the residual. |
| EcsJson.TimestampFirst | tests/test_utils.py:73-80 | `@timestamp` is written unchanged and, when present, is the first field. |
| EcsJson.MessageKept | tests/test_utils.py:63-66 | `message` is written unchanged, whatever its value. |
| EcsJson.LevelPromoted | tests/test_utils.py:56-61 | `log.level` is the nested `log.level` when there is one, else the literal `"log.level"` key. |
| EcsJson.LogResidual | tests/test_utils.py:58-88 | `log` is unchanged without a nested level. With one, it loses `level` and is dropped when nothing is left. |
| EcsJson.OthersKept | tests/test_utils.py:67 | Every other key is written unchanged. |
| EcsJson.PlainRecordUnchanged | tests/test_utils.py:67 | A record with none of the special keys is written as it is. |
| EcsJson.FieldsInOrder | tests/test_utils.py:69-80 | With at most one source for `log.level`, the output lists `@timestamp`, then `log.level`, then `message`, then the remaining fields. |
| EcsJson.JsonDumpsDecodes | tests/test_utils.py:55-88 | The text of `json_dumps` reads back as the reordered record. |
| TestCases.FlattenSample | tests/test_utils.py:22-25 | The example flattens to `a.b`, `a.c.d.e.f` and `a.c.d.e.g`; the mapping inside the list keeps `f.c`. |
| TestCases.FlattenNestedAgainstDotted | tests/test_utils.py:27-28 | `{"a": {"b": 1}, "a.b": 2}` is refused with `DuplicateEntry("a.b")`. |
| TestCases.FlattenThreeWay | tests/test_utils.py:32-33 | The three-way collision is refused with `DuplicateEntry("a.b.c")`. |
| TestCases.DuplicateMessages | tests/test_utils.py:30-35 | The two error texts, word for word. |
| TestCases.DeDotSample | tests/test_utils.py:39 | `de_dot("x.y.z", {"a": {"b": 1}})` is `{"x": {"y": {"z": {"a": {"b": 1}}}}}`. |
| TestCases.NormalizeSample | tests/test_utils.py:42-45 | The example normalizes to the single tree under `a`, with `[{"f": {"c": 2}}]` under `g`. |
| TestCases.NormalizeScalarList | tests/test_utils.py:48-49 | `{"a": ["1", "2"]}` comes back unchanged. |
| DumpCases.NestedLevelOnly | tests/test_utils.py:56 | `{"log": {"level": v}}` becomes `{"log.level": v}` for every `v`. |
| DumpCases.MessageOnly | tests/test_utils.py:63-66 | `{"message": v}` is kept as it is for every `v`. |
| DumpCases.DumpsEmpty | tests/test_utils.py:55 | `{}` is written `{}`. |
| DumpCases.DumpsNestedLevel | tests/test_utils.py:56 | `{"log": {"level": "info"}}` is written `{"log.level":"info"}`. |
| DumpCases.DumpsDottedLevel | tests/test_utils.py:57 | `{"log.level": "info"}` is written `{"log.level":"info"}`. |
| DumpCases.DumpsSplitLog | tests/test_utils.py:58-61 | `level` is promoted and `message` stays in `log`. |
| DumpCases.DumpsTimestamp | tests/test_utils.py:62 | The timestamp record is written as it is. |
| DumpCases.DumpsMessage | tests/test_utils.py:63 | A text message is written as it is. |
| DumpCases.DumpsMessageInt | tests/test_utils.py:64 | An integer message is written `1`. |
| DumpCases.DumpsMessageList | tests/test_utils.py:65 | A list message is written `["hello"]`. |
| DumpCases.DumpsMessageMapping | tests/test_utils.py:66 | A mapping message is written `{"key":"val"}`. |
| DumpCases.DumpsCustom | tests/test_utils.py:67 | A custom key is written as it is. |
| DumpCases.DumpsMessageAfterLog | tests/test_utils.py:69-72 | `message` is written before the `log` mapping that preceded it. |
| DumpCases.DumpsFullRecord | tests/test_utils.py:73-80 | The full record is written in the order `@timestamp`, `log.level`, `message`, `log`. |
| DumpCases.DumpsLevelOnlyLog | tests/test_utils.py:81-88 | A `log` holding only `level` leaves no `log` behind. |

## Left out

- The Python module `ecs_logging/_utils.py` is not part of this model. Beyond the test assertions, the model follows the algorithm described at the top of this file: flatten to full paths, normalize each leaf, de-dot each path and deep-merge; for `json_dumps`, promote `@timestamp`, `log.level` and `message` to the front and keep the rest in input order.
- JSON string escaping, non-ASCII text and floats are not modelled: `Json.DecodeEncode` and `EcsJson.JsonDumpsDecodes` require escape-free keys and strings, and the value type has no floats. No test writes a string that needs escaping.
- Values that JSON cannot encode, and any fallback for them, are not modelled.
- Flattening.Flatten: refuses every path reached twice, even when both values are identical. Whether the library accepts identical duplicates is not modelled; the tests only show differing values.
- EcsJson.EcsFields: the residual fields keep their input order. The tests never have more than one residual field, so no order among them is claimed beyond that.
- EcsJson.FieldsInOrder: requires that a record does not carry both a nested `log.level` and a literal `"log.level"` key. With both, the model promotes the nested one and writes the literal key among the residual fields; no test covers this.
- A `log` value that is not a mapping is treated as having no nested level and is written unchanged; no test covers this.
- A deep merge that meets a non-mapping where it must descend returns `TypeMismatch`; `NormalForm.NormalizeObjectOk` states exactly when this happens. No test reaches this case, and no message text is modelled for it.
- An empty mapping under a key has no leaves, so `flatten_dict` drops it and `normalize_dict` does too (`NormalForm.EmptyMappingDropped`). A fully nested mapping is therefore its own normal form only when it holds no empty mapping under a key (`NormalForm.NormalizeFixedPoint`).
- Normalizing.NormalizeThenFlatten: holds up to the order of the leaves, not the exact order. The round trip `flatten(normalize(M)) == flatten(M)`, which one would expect of a reverse of flattening, also does not hold as written when a list holds a mapping with a dotted key: the test at lines 43-45 shows `normalize_dict` expanding `"f.c"` inside the list, which `flatten_dict` leaves alone (lines 24-25). The model follows the tests and states the round trip for normalized leaves, and exactly only when no list holds a mapping.
- Whether `json_dumps` changes the caller's record in place is not modelled; the model returns new values.
- The pytest machinery (`pytest.raises`, `parametrize`) is not modelled; each assertion is a lemma.
