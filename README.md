# Default removal (`Unset`) of creasty/defaults, in Dafny

This project models the default-removal engine of the Go package
`creasty/defaults` (unset.go) and proves what it does. `Unset(ptr)` follows
any number of pointers to a struct. It then resets that struct's fields in
declaration order. The `unset` tag of each field decides how:

- `-`: the field is left alone.
- no tag (or any other text): a non-zero field is replaced by the zero value
  of its type.
- `walk`: a non-zero field is cleared structurally. A pointer keeps pointing
  and its pointee is walked. A struct has each field processed by that field's
  own tag. A slice keeps its length and each element is walked. A map keeps
  its keys. Each map value is handled by kind: a pointer has its pointee
  walked; a struct, slice or map is copied out, walked and written back;
  anything else becomes zero.

A field that cannot be set (unexported) is never changed. Neither is a field
already at its zero value.

Files:

- `values.dfy` (module `Values`): Go-like values as owned trees, the zero value
  of a value's type (`ZeroOf`), and the zero-value test `IsInitial` called at
  unset.go:50. That helper's source file is not part of this model. It is
  modelled as "deep-equal to the zero value of its type", as the `CanUpdate`
  table of setter_test.go pins down. `IsInitialIffIsZero` proves it equal, in
  both directions, to a structural definition: 0, "", false, nil pointer, nil
  slice, nil map, or a struct whose fields are all zero.
- `unset.dfy` (module `Unsetting`): specification functions (`Target`,
  `ClearField`, `ClearFields`, `ClearEntry`, `UnsetResult`) and the imperative
  traversal (`Indirect`, `UnsetField`, `UnsetStruct`, `Unset`, `MustUnset`,
  with the loops of unset.go). Each method is proved equal to its
  specification function.
- `unset_properties.dfy` (module `UnsetProperties`): the promises of the
  engine, proved for all inputs. They rest on `Cleared`, an independent
  description of a value with nothing left to clear. Clearing always produces
  such a value. Such values are exactly the fixed points of clearing. So
  `Unset` is idempotent. Clearing also keeps the type, the pointer chain, slice
  lengths and map keys. It touches no `-` or unexported field, and it zeroes
  untagged fields.
- `unset_scenarios.dfy` (module `UnsetScenarios`): the cases of unset_test.go
  and the zero-value table of setter_test.go as lemmas.

Modelling decisions:

- Values are owned trees; no memory is shared between paths. Go changes the
  caller's value in place through reflection. Here each method returns the new
  value of what it was given. The loops over struct fields, slice indices and
  map keys rebuild the local sequence or map one component at a time.
- A non-nil pointer, slice or map is a different constructor from the nil one
  (`Ptr`/`NilPtr`, `Slice`/`NilSlice`, `Map`/`NilMap`). So the zero value of a
  value's type can be computed from the value. A struct value carries its field
  descriptors (name, exported, `unset` tag), the part of the struct type the
  engine reads.
- `field.CanSet()` is the `canSet` parameter of `ClearField`/`UnsetField`.
  Within `unsetStruct` it is "exported and the struct is addressable". Every
  value the engine reaches through a pointer, a slice element or a map copy is
  addressable, so those calls pass `true`. For a nil pointer stored in a walked
  map, `Elem()` is the invalid value, which cannot be set, so that entry is left
  as it is.
- `MustUnset`'s parameter is named `ptr` (unset.go:13), but the code
  (unset.go:18-24) also accepts a struct passed by value: `indirect` returns
  it, its kind is struct, and `unsetStruct` runs. No field of that copy can be
  set, so nothing changes and `Unset` returns nil
  (`UnsetByValueChangesNothing`).

## Model

| member | source | states |
|---|---|---|
| `Values.ZeroOf` | unset.go:55 | the zero value of a value's type is zero (structurally) and has the same kind (number, string, bool, pointer, struct, slice or map), and a zero struct keeps the field layout |
| `Values.IsInitial` | unset.go:50 | a number, string or bool passes the zero test exactly when it is 0, "" or false; a nil pointer, slice or map always passes; a non-nil one never does |
| `Values.IsInitialIffIsZero` | unset.go:50 | the deep-equality zero test holds exactly for 0, "", false, nil pointer/slice/map and structs whose fields are all zero |
| `Values.ZeroOfIsInitial` | unset.go:55 | a zero value written by the engine passes the zero test, so it is never touched again |
| `Unsetting.Target` | unset.go:37-43 | following pointers, when it reaches a value, reaches a non-pointer |
| `Unsetting.WithTarget` | unset.go:19-23 | updating what the pointers lead to keeps every pointer level and makes the new struct the target |
| `Unsetting.ClearField` | unset.go:45-86 | a field that cannot be set is returned unchanged; a settable field without `walk` ends up zero; a value already zero is never changed |
| `Unsetting.ClearEntry` | unset.go:72-83 | a walked map value keeps its kind, a non-nil pointer stays non-nil, and a number, string or bool becomes zero |
| `Unsetting.ClearFields` | unset.go:26-35 | processing a struct's fields keeps their number, names, exportedness and tags |
| `Unsetting.UnsetResult` | unset.go:18-25 | on success the pointer chain of the argument is kept and still leads to a struct |
| `Unsetting.Indirect` | unset.go:37-43 | the pointer-chasing loop returns exactly `Target` of its argument |
| `Unsetting.UnsetField` | unset.go:45-86 | the new value of a field is exactly `ClearField` (CanSet, zero test, wholesale zero, walk by kind) |
| `Unsetting.UnsetElems` | unset.go:66-69 | the walked-slice loop clears every element in walk mode and keeps the length |
| `Unsetting.UnsetEntries` | unset.go:70-84 | the walked-map loop, in any key order, gives each key the value `ClearEntry` prescribes and keeps the key set |
| `Unsetting.UnsetMapIndex` | unset.go:72-83 | one map key: pointer pointee walked, composite copied, walked and written back, other kinds zeroed; other keys untouched |
| `Unsetting.UnsetStruct` | unset.go:26-35 | the field loop skips `-` fields and processes the rest, in order, to exactly `ClearFields` |
| `Unsetting.Unset` | unset.go:18-25 | returns errInvalidType and leaves the argument unchanged exactly when `UnsetResult` fails; otherwise the new argument is `UnsetResult`'s value |
| `Unsetting.MustUnset` | unset.go:13-17 | panics, with errInvalidType, exactly when `Unset` fails; otherwise returns the cleared value |
| `UnsetProperties.ZeroIsCleared` | unset.go:50-53 | a zero value already counts as cleared, in walk mode or not |
| `UnsetProperties.ClearFieldClears` | unset.go:45-86 | after a settable field is processed, nothing the engine would clear remains in it |
| `UnsetProperties.ClearFieldsClear` | unset.go:26-35 | after a walked struct is processed, every exported field not tagged `-` is cleared by its own tag |
| `UnsetProperties.ClearEntryClears` | unset.go:70-84 | after a walked map entry is processed, nothing the walk would clear remains in it |
| `UnsetProperties.ClearedIsFixpoint` | unset.go:45-86 | a cleared value is left exactly as it is |
| `UnsetProperties.StructClearedIsFixpoint` | unset.go:26-35 | a struct whose fields are all cleared is left exactly as it is |
| `UnsetProperties.EntryClearedIsFixpoint` | unset.go:70-84 | a cleared map entry is written back unchanged |
| `UnsetProperties.ClearFieldFixpoints` | unset.go:45-86 | processing leaves a settable field unchanged if and only if it is already cleared |
| `UnsetProperties.ClearFieldIdempotent` | unset.go:50-53 | processing a field twice gives the same as processing it once |
| `UnsetProperties.ClearFieldKeepsType` | unset.go:45-86 | the new value of a field has the type of the old one (same zero value: same kind, same struct layout all the way down) |
| `UnsetProperties.ClearFieldsKeepType` | unset.go:26-35 | the processed struct has the type of the original |
| `UnsetProperties.FieldChangesOnlyWhenAllowed` | unset.go:26-53 | a field changes only if the struct is addressable, the field is exported, not tagged `-`, and not zero |
| `UnsetProperties.PlainFieldBecomesZero` | unset.go:54-57 | a settable field without `walk` or `-` becomes exactly the zero value of its type; pointers, slices and maps become nil |
| `UnsetProperties.WalkKeepsSkeleton` | unset.go:59-85 | walking keeps a non-nil pointer non-nil, a slice's length and a map's key set |
| `UnsetProperties.WalkedPointerToNil` | unset.go:62-63 | a walked pointer to a nil pointer is unchanged |
| `UnsetProperties.WalkedMapEntries` | unset.go:70-84 | a walked map keeps the pointer of a pointer value and walks its pointee, walks composite values, and zeroes scalar values |
| `UnsetProperties.UntaggedStructBecomesZero` | unset_test.go:9-15 | `Unset` on a pointer to a struct whose fields are all exported and untagged yields the pointer to the all-zero struct |
| `UnsetProperties.UnsetFailsUnlessStruct` | unset.go:18-22 | `Unset` fails, always with errInvalidType, exactly when following pointers does not end at a struct |
| `UnsetProperties.TargetIsStruct` | unset.go:37-43 | following pointers ends at a struct exactly when the value is pointers ending at a struct |
| `UnsetProperties.UnsetByValueChangesNothing` | unset.go:46-48 | a struct passed by value is accepted and left unchanged, since none of its fields can be set |
| `UnsetProperties.UnsetClearsTarget` | unset.go:18-25 | through a pointer, `Unset` keeps every pointer level, keeps the struct's layout and leaves it cleared |
| `UnsetProperties.TargetGetPut` | unset.go:37-43 | following pointers reaches the end of the chain, at any depth: writing the value reached back through the chain rebuilds the argument, and nothing is reached exactly when the chain ends at a nil pointer |
| `UnsetProperties.WithTargetTwice` | unset.go:19-23 | writing the same struct through the pointer chain twice is the same as once |
| `UnsetProperties.UnsetIdempotent` | unset.go:50-53 | a second `Unset` of the result changes nothing |
| `UnsetScenarios.InitialValueTable` | setter_test.go:12-25 | 0, "", false, `st{}` and a nil pointer are zero; 123, "string", true, `st{Int:123}` and `&st{}` are not |
| `UnsetScenarios.IntPointerIsInvalid` | unset_test.go:17-20 | `Unset` of a `*int`, or of a pointer to a nil pointer, is errInvalidType |
| `UnsetScenarios.MustUnsetIntPointerPanics` | unset_test.go:20 | `MustUnset` of a `*int` panics with errInvalidType |
| `UnsetScenarios.OptOutFieldKept` | unset_test.go:23-31 | a field tagged `-` keeps "test" and `Unset` succeeds |
| `UnsetScenarios.WalkedIntPointer` | unset_test.go:46 | a walked `*int` keeps pointing, at 0 |
| `UnsetScenarios.EmbeddedWalk` | unset_test.go:48-51 | walking `EmbeddedUnset` zeroes `Int` and keeps the `-` field `String` |
| `UnsetScenarios.StructUnsetFields` | unset_test.go:94-102 | the fields of a walked `StructUnset`: plain ones zero, walked pointer at 0, nested `-` strings kept |
| `UnsetScenarios.StructUnsetWalk` | unset_test.go:43-51 | walking a set `StructUnset` gives exactly the expected cleared struct |
| `UnsetScenarios.PrivateFieldKept` | unset_test.go:38-42 | an unexported field, even tagged `walk`, keeps its value `StructUnset{WithDefault: "test"}` |
| `UnsetScenarios.StructPtrNoWalkBecomesNil` | unset_test.go:47 | a pointer field without `walk` becomes nil |
| `UnsetScenarios.SliceOfIntPtrPtrWalk` | unset_test.go:56 | walking `[]**int` zeroes the ints and keeps the pointer to a nil `*int` unchanged |
| `UnsetScenarios.MapOfIntWalk` | unset_test.go:68-69 | walking `map[string]int` and `map[string]*int` zeroes the int values and pointees |
| `UnsetScenarios.MapOfStructWalk` | unset_test.go:70-81 | walking `map[string]StructUnset` holding `Foo: 123` clears the entry by copy and write-back, so `Foo` is 0, and keeps its `-` string "foo" |
| `UnsetScenarios.NestedMapOfStructWalk` | unset_test.go:71-84 | walking `map[string]*StructUnset` keeps the pointer and clears its struct; walking `map[string]map[string]StructUnset` clears the inner map's struct by copy and write-back; both keep the `-` string "foo" |
| `UnsetScenarios.ContainersWithoutWalkBecomeNil` | unset_test.go:65 | a slice (`SliceSetNil`) or map (`MapSetNil`) field without `walk` becomes nil |

## Left out

- Floating-point and every numeric width: all numbers are one `Num` kind. The engine only tests them for zero and writes zero.
- Interface, array, function and channel kinds: not modelled. Under this engine they behave like scalars, because the walk switch has no case for them and they are reset wholesale.
- Map keys are strings here. The engine never changes keys.
- Go's map iteration order: the map loop picks keys in an arbitrary order. Each key is handled independently, so the result does not depend on the order.
- Pointer aliasing and sharing: values are owned trees. Two paths to the same memory, and cyclic structures, are not represented.
- Element types of nil pointers, slices and maps are not tracked. `ClearFieldKeepsType` therefore speaks of kinds and struct layouts, not of element types.
- A nil interface argument (`Unset(nil)`): not a value of the model. The code returns errInvalidType for it, as it does for a nil pointer.
- Panics inside reflection (none are reachable on the paths modelled) and the panic value of `MustUnset`, beyond the error it carries.
- The default-application side (`Set`, `MustSet`, `CanUpdate`, the literal decoders and the setter hooks) is a separate engine. Its code is not part of this model. defaults.go's `Init` returns nil and does nothing. setter.go and defaults_setter.go only forward to user hooks.
