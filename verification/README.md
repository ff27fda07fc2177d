# DataQ path resolution, in Dafny

DataQ reads and writes the fields of arbitrary Go values by dotted path
(`"Gamma.Ypsilon"`, `"Zeta.zeta1"`) using reflection, and flattens a value
into a map from fully qualified names to leaf values. This project models
two generations of that engine and proves what they promise.

- The current package (`pkg/`):
  - `getValueOf` walks a path with a configurable separator;
  - `get` attaches a type code;
  - the `Surfer` carries the separator and offers typed getters and
    `GetFlatData`;
  - `Compare` is a package function over two values.
- The root package (`dataq.go`, `helpers.go`):
  - the older dot-only walk;
  - typed getters and setters;
  - `GetVars` and `GetFlatData`;
  - a copy of the walk (`helpers.go`) that takes a separator.

Go values are an inductive datatype `Values.Val`:
- pointers, with their target inline;
- structs as ordered named fields;
- `int`, `int64`, `float32`, `float64`, `string` and `bool`;
- maps with their key and element kinds, where a nil map has no entries;
- any other kind.

Floats are opaque tokens compared for equality. A Go panic becomes a
precondition:
- `Helpers.NoPanic`, `Legacy.ResolveNoPanic` and `Dataq.FlattenNoPanic`
  follow each walk and state exactly the inputs that do not panic;
- `Dataq.FlattenNoPanic` follows the flattening loop, so nothing is asked of
  the fields after one whose flattening fails;
- `LegacyBulk.BulkNoPanic` asks for a non-empty name in every field, which
  every Go struct field has.

Everything else the source does becomes an `Ok` or an `Err` of a `Res`.

Modules:
- **Text**: the `Split`/`Join` semantics of Go's `strings`, and ASCII case
  helpers.
- **Values**: the value model, `datatype` codes, field lookup and
  well-formedness.
- **Helpers / HelpersProps**: `pkg/helpers.go` and what each branch of the
  walk returns.
- **Dataq / DataqProps**: the `Surfer` class and its flattening, with the
  round trip "every flattened key resolves back to its value".
- **Operators / OperatorsProps**: the typed getters and `Compare` of
  `pkg/operators.go`, and the getters read back a flattened map.
- **Legacy, LegacyProps, LegacyBulk, LegacySet, RootHelpers, LegacyBulkProps**: the root
  package, its setters, its agreement with the current package, and the
  separator defect of `helpers.go`.

## Model

| member | source | states |
|---|---|---|
| Values.Datatype | pkg/helpers.go:27-51 | each supported kind has its own code (pointer 0 … map 8), and exactly the unsupported kinds get -1 |
| Values.FieldIndex | pkg/helpers.go:147 | `FieldByName` finds the first field with that name, and none when no field has it |
| Helpers.CheckFieldName | pkg/helpers.go:54-64 | a non-empty name is accepted iff its first character is upper case |
| Helpers.GetFieldsFromMap | pkg/helpers.go:67-113 | for a string-keyed map of a handled element kind, exactly its keys, each once; for anything else, no keys |
| Helpers.GetValueFromMap | pkg/helpers.go:116-129 | the value under the key; "key missing" when it is absent; "not a map" otherwise |
| Helpers.GetValueOf | pkg/helpers.go:132-196 | a successful walk started on an exported first segment, and a one-segment walk returns a leaf |
| Helpers.Get | pkg/helpers.go:199-209 | walk errors pass through; a value of an unsupported kind is an error; otherwise the walked value with its code, never -1 |
| HelpersProps.ResolveLeaf | pkg/helpers.go:150-157 | a leaf field is returned at the end of the path; below a leaf, "primitive sublevel" |
| HelpersProps.ResolveUnsupported | pkg/helpers.go:187-189 | an int64 or other-kind field is "not supported" at any depth |
| HelpersProps.ResolveContainerTarget | pkg/helpers.go:158-161 | a path ending on a pointer, struct or map field is an error naming that field |
| HelpersProps.ResolveNil | pkg/helpers.go:163-164 | a nil pointer or nil map on the path stops the walk with "nil field" |
| HelpersProps.ResolveMapKey | pkg/helpers.go:170-185 | below a map field, the rest of the path is one key: its value if present, "key missing" otherwise |
| HelpersProps.StepThroughPointer | pkg/helpers.go:166-167 | through a non-nil pointer field, the walk continues on the target with the rest of the path |
| HelpersProps.RejectInvalidFirst | pkg/helpers.go:133-137 | a path whose first segment is not exported fails with "not valid", whatever the source |
| HelpersProps.RejectRootOrMissing | pkg/helpers.go:145-149 | a root that is neither a struct nor a pointer to one is "unhandled"; an absent field is "missing field" |
| Text.JoinSplit | pkg/helpers.go:167 | joining the split parts with the separator restores the path |
| Text.SplitJoinTail | pkg/helpers.go:167 | re-splitting the rejoined tail gives the tail segments, so each call consumes one segment |
| Text.SplitJoinSegments | helpers.go:28 | splitting the join of separator-free segments gives the segments back |
| Dataq.LastOptionWins | pkg/dataq.go:99-107 | `NewSurfer` uses the last `WithSep` option, or `.` when there is none |
| Dataq.Surfer.constructor | pkg/dataq.go:99-107 | the new Surfer's separator is the one the options give |
| Dataq.Surfer.GetFlatData | pkg/dataq.go:28-96 | the loop returns exactly the flattening specification, its map and its error, on every input on which the loop does not panic |
| Dataq.MergePrefixed | pkg/dataq.go:54-56 | the result is the earlier map updated with every sub-key under field name + separator + key |
| Dataq.MergeMapField | pkg/dataq.go:61-73 | every listed map key is added under field name + separator + key |
| Dataq.PrefixedOnAt | pkg/dataq.go:55 | a prefixed key holds the value of the original key |
| Dataq.PrefixedOnInv | pkg/dataq.go:55 | every prefixed key comes from exactly one original key |
| DataqProps.RoundTrip | pkg/dataq.go:28-96 | every key of a successful flattening resolves through `getValueOf`, with the same separator, to the value stored under it |
| DataqProps.FlattenScalarField | pkg/dataq.go:58-60 | an exported scalar field appears under its own name |
| DataqProps.FlattenPointerField | pkg/dataq.go:45-57 | every entry of a non-nil pointer field's flattening appears under field name + separator + key |
| DataqProps.FlattenMapField | pkg/dataq.go:61-73 | every entry of a listed map field appears under field name + separator + key |
| DataqProps.FlattenKeysProduced | pkg/dataq.go:39-81 | every key of the result comes from an exported scalar field, a pointer field's sub-key or a map key |
| DataqProps.FlattenFailsIff | pkg/dataq.go:50-53 | flattening a struct fails exactly when flattening one of its exported non-nil pointer fields fails |
| DataqProps.ErrorBeforeStructField | pkg/dataq.go:46-52 | a struct field after a failing pointer field is never reached: the error is returned and nothing panics |
| DataqProps.FlattenMapRoot | pkg/dataq.go:82-92 | a map root flattens to the empty map |
| DataqProps.ReadyRecord | pkg/dataq.go:39-43 | a ready record's exported fields have distinct, separator-free names and ready pointer targets |
| Operators.GetFloat64 | pkg/operators.go:13-26 | a float64 as it is, a string parsed, a bool or container an error naming the field; walk errors and "type not supported" from `get` passed through |
| Operators.GetInt64 | pkg/operators.go:29-42 | an int64 as it is, a string parsed, a float, bool or container an error; walk errors and "type not supported" from `get` passed through |
| Operators.GetString | pkg/operators.go:45-56 | succeeds exactly on string fields; a container is "not a string"; walk errors and "type not supported" from `get` passed through |
| Operators.GetBool | pkg/operators.go:59-75 | succeeds exactly on bool and string fields; a string is true iff it equals "true" ignoring case; walk errors and "type not supported" from `get` passed through |
| Operators.TrueIgnoringCase | pkg/operators.go:68 | upper-casing equals "TRUE" iff the string equals "true" ignoring ASCII case |
| Operators.Compare | pkg/operators.go:78-114 | different codes are unequal; the same scalar code compares values; any other shared code is "unsupported type" |
| Operators.CompareReflexiveSymmetric | pkg/operators.go:78-114 | on scalars Compare is reflexive, and it is symmetric everywhere |
| OperatorsProps.FlatDataThroughGetters | pkg/operators.go:13-114 | each flattened value reads back through the getter of its kind, and `Compare` finds it equal |
| Legacy.CheckFieldName | dataq.go:18-26 | a non-empty name is accepted iff its first character is upper case; otherwise "not exported", carrying that first character |
| Legacy.KindRefinesCode | pkg/helpers.go:27-51 | equal reflection kinds give equal type codes |
| Legacy.Resolve | dataq.go:28-65 | a successful walk began on an exported first segment (each branch is stated by the `LegacyProps` lemmas) |
| LegacyProps.ResolveField | dataq.go:43-49 | a one-segment path naming an exported field returns that field, whatever its kind |
| LegacyProps.ResolveBelowScalar | dataq.go:50-57 | a path going below a field that is neither a struct nor a pointer is "not supported", carrying that field's value |
| LegacyProps.ResolveDescend | dataq.go:51-53 | below a struct or pointer field, the walk continues there with the remaining segments rejoined |
| LegacyProps.ResolveRejectsFirst | dataq.go:29-33 | a path whose first segment is not exported fails with "not exported", carrying its first character, whatever the source |
| LegacyProps.ResolveRootOrMissing | dataq.go:34-63 | a root that is not a struct after one dereference, a nil pointer included, is "unhandled"; an absent field is "missing field" |
| Legacy.ResolveBySegments | dataq.go:29-65 | with one separator, the string walk is the segment-list walk: it panics on the same inputs and returns the same result |
| Legacy.GetFloat64 | dataq.go:77-91 | a float64 as it is, a string parsed, any other kind "not float64" |
| Legacy.GetInt64 | dataq.go:94-108 | an int64 as it is, a string parsed, any other kind "not int64" |
| Legacy.GetString | dataq.go:111-117 | the string field, walk errors passed through |
| Legacy.GetBool | dataq.go:120-132 | only a bool field succeeds; a string is "not bool" |
| Legacy.Compare | dataq.go:181-216 | different kinds are unequal; the same scalar kind compares values; any other shared kind is "unsupported type" |
| Legacy.CompareAgreesWithCodes | dataq.go:181-216 | the root `Compare` equals the current one, except on two distinct unsupported kinds |
| LegacyBulk.Prefixed | dataq.go:243-245 | each name gets the prefix, order and length kept |
| LegacyBulk.GetVars | dataq.go:219-259 | the loop returns exactly the listing specification, its names and its error (which names: `LegacyBulkProps.VarsListsFields`) |
| LegacyBulk.GetFlatData | dataq.go:262-302 | the loop returns exactly the flattening specification, its map and its error (which keys: the `LegacyBulkProps.FlatData…` lemmas) |
| LegacyBulkProps.VarsMatchFlatData | dataq.go:219-302 | `GetVars` and `GetFlatData` fail alike, and otherwise list the same names as the map's keys |
| LegacyBulkProps.VarsDistinct | dataq.go:219-259 | on well-formed data whose names hold no dot, `GetVars` lists no name twice |
| LegacyBulkProps.LegacyRoundTrip | dataq.go:262-302 | every key of the root `GetFlatData` resolves through `Get` to the value stored under it |
| LegacyBulkProps.SurferAgreesWithLegacy | pkg/dataq.go:28-96 | without nil pointers or maps, the Surfer's flattening with "." equals the root one |
| LegacyBulkProps.NilPointerAborts | dataq.go:237-242 | a nil pointer field makes the root `GetVars` and `GetFlatData` fail, where the Surfer skips it |
| LegacyBulkProps.FlatDataScalarField | dataq.go:289-290 | an exported scalar field appears in the root `GetFlatData` under its own name, with its value |
| LegacyBulkProps.FlatDataNestedField | dataq.go:280-288 | every entry `k` of an exported struct or pointer field's flat data appears as name + "." + `k`, with the same value |
| LegacyBulkProps.FlatDataKeysProduced | dataq.go:272-297 | every key comes from an exported scalar field or from below an exported struct or pointer field; maps, int64, other kinds and unexported fields give none |
| LegacyBulkProps.VarsListsFields | dataq.go:230-254 | `GetVars` lists every exported scalar field under its name and every path below a struct or pointer field as name + "." + path, and nothing else |
| LegacyBulkProps.LeafResolvesAlike | dataq.go:29-65 | wherever the root walk reaches a leaf, the current walk with the same separator reaches the same leaf |
| LegacySet.Assign | dataq.go:135-178 | a write keeps the kind of every value on the path and the names of every struct |
| LegacySet.CanSet | dataq.go:140-141 | a top-level field is settable iff the root was passed as a pointer; a deeper one iff the path without its last segment leads to a pointer |
| LegacySet.AssignThenResolve | dataq.go:135-178 | after the write, the path resolves to the value written |
| LegacySet.AssignFrame | dataq.go:135-178 | a write of the same kind leaves unchanged every path that neither leads to the written field nor goes below it; a path below it fails before and after, carrying the old value before and the new one after |
| LegacySet.SetThenGet | dataq.go:135-178 | after a setter succeeds, `Get` on its path returns the value written |
| LegacySet.SetLeavesOthers | dataq.go:135-178 | after a setter succeeds, `Get` on any path that neither leads to the written field nor goes below it is unchanged; one going below it fails with the written value instead of the old one |
| LegacySet.Variable.SetString | dataq.go:135-148 | walk errors and "cannot be updated" leave the variable unchanged; otherwise the field becomes the string |
| LegacySet.Variable.SetInt64 | dataq.go:151-158 | walk errors leave the variable unchanged; otherwise the int or int64 field becomes the number; int8, int16 and int32 fields are accepted too |
| LegacySet.Variable.SetFloat64 | dataq.go:161-168 | walk errors leave the variable unchanged; otherwise the float32 or float64 field becomes the number |
| LegacySet.Variable.SetBool | dataq.go:171-178 | walk errors leave the variable unchanged; otherwise the bool field becomes the value |
| RootHelpers.TwoSegmentsAsWritten | helpers.go:27-63 | a two-segment path walks its two segments, whatever the separator |
| RootHelpers.ThreeSegmentsAsWritten | helpers.go:52 | a three-segment path walks its first segment and then one segment holding the last two joined by "." |
| RootHelpers.RejoinWithDotCounterexample | helpers.go:52 | "A_B_C" with separator "_" on a three-level struct is "missing field B.C" |
| RootHelpers.CorrectedSeparatorIndependent | helpers.go:27-63 | rejoining with the split separator walks the same segments for any separator |
| RootHelpers.CorrectedResolvesNested | helpers.go:27-63 | the corrected walk reaches the leaf of "A_B_C" with "_", as with "A.B.C" and "." |

## Left out

- Unicode: upper-case checks and `strings.ToUpper` are modelled on ASCII letters only.
- Floating point: floats are opaque tokens compared for equality. NaN, and the rounding of a float64 into a float32 field by `SetFloat64`, are not modelled.
- Integer widths: `int` and `int64` are unbounded. The truncation of an int64 into an `int` field by `SetInt64`, and range errors from parsing, are not modelled.
- Parsing: `strconv.ParseFloat` and `strconv.ParseInt` are parameters of the getters.
- Aliasing: pointer targets are stored inline in the value, so two pointers to one struct are two copies, and a write through one is not seen through the other.
- Logging: the log calls are left out.
- Partial data: on an error, the source also returns the data gathered so far. The model returns the error only.
- Nil interface, embedded fields, struct tags, and map keys or elements of kinds not listed above are not modelled.
- Panics: each panic of the source is a precondition, so the model states nothing about panicking inputs.
- SetString: the "not valid for changing" branch (dataq.go:147) cannot be reached once the walk succeeds, so it has no counterpart.
- Legacy.Resolve: also stands for the root `Get` (dataq.go:68-74), which returns the walked value as it is.
- helpers.go: `checkFieldName` and `Compare` are copies of the ones in dataq.go and are modelled once (`Legacy.CheckFieldName`, `Legacy.Compare`).
- Surfer getters: they take the separator as an argument rather than the receiver, since they read only its `sep`.
- operators.go at the root is not part of this model: its `Surfer` getters and setters delegate to `s.get` and `s.set`, which no file of the repository defines, and its `Compare` behaves as the one in dataq.go (`Legacy.Compare`).
- The test files are not part of this model.
- LegacySet.Variable.SetInt64: an int8, int16 or int32 field is a value of another kind with no number in it, so the truncated number `SetInt` stores there is not recorded and the field is left as it was.

Where the current code and its documentation differ, the model follows the code:
- A map root flattens to an empty map, because the map is handed on as a `reflect.Value` and no keys are found.
- Map fields whose element kind is not handled contribute no keys.
- The current `GetBool` also accepts string fields.
- The current `getValueOf` rejects `int64` fields as "not supported".

## Findings

| source | as written | input that shows it | evidently intended | confidence | as-written member | corrected member |
|---|---|---|---|---|---|---|
| helpers.go:52 | after splitting the path on `sep`, the tail is rejoined with "." before the recursive call, which splits it on `sep` again | path "A_B_C", separator "_", value with fields A.B.C = 1: the second call looks up the field "B.C" and fails with "missing field B.C" | rejoin with `sep`, so that each call consumes one segment and the walk reaches C = 1 | high (not executed) | RootHelpers.RejoinWithDotCounterexample | RootHelpers.CorrectedSeparatorIndependent |
