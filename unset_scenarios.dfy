/**
 * Concrete cases from the repository's tests (unset_test.go and the zero-value
 * table of setter_test.go), stated as lemmas about the model.
 */
module UnsetScenarios {
  import opened Values
  import opened Unsetting
  import opened UnsetProperties

  /** `type st struct{ Int int }` holding `n`. */
  function St(n: int): Value {
    Struct([Field("Int", true, "", Num(n))])
  }

  /** The zero-value table of setter_test.go:12-25 (floats are numbers here). */
  lemma InitialValueTable()
    ensures IsInitial(Num(0)) && !IsInitial(Num(123))
    ensures IsInitial(Str("")) && !IsInitial(Str("string"))
    ensures IsInitial(Bool(false)) && !IsInitial(Bool(true))
    ensures IsInitial(St(0)) && !IsInitial(St(123))
    ensures IsInitial(NilPtr) && !IsInitial(Ptr(St(0)))
  {
    assert ZeroOf(St(123)).fields[0].value == Num(0);
  }

  /** `Unset(&tmp)` with `tmp := 8` fails with errInvalidType, and MustUnset panics. */
  lemma IntPointerIsInvalid()
    ensures UnsetResult(Ptr(Num(8))) == Err(InvalidType)
    ensures UnsetResult(Ptr(NilPtr)) == Err(InvalidType)
  {
  }

  method MustUnsetIntPointerPanics() returns (c: Completion)
    ensures c == Panicked(InvalidType)
  {
    c := MustUnset(Ptr(Num(8)));
  }

  /** A field tagged `unset:"-"` keeps its value (unset_test.go:23-31). */
  lemma OptOutFieldKept()
    ensures var s := Ptr(Struct([Field("IgnoreMe", true, SkipTag, Str("test"))]));
      UnsetResult(s) == Ok(s)
  {
    var obj := Struct([Field("IgnoreMe", true, SkipTag, Str("test"))]);
    assert ClearFields(obj, true) == obj.fields;
    assert Target(Ptr(obj)) == Some(obj);
  }

  // The types of unset_test.go:89-102.

  /** `EmbeddedUnset{Int: i, String: s}`; String is tagged `-`. */
  function Embedded(i: int, s: string): Value {
    Struct([Field("Int", true, "", Num(i)), Field("String", true, SkipTag, Str(s))])
  }

  /** A `StructUnset` value, field by field. */
  function MkStructUnset(embedded: Value, foo: int, bar: int, barPtr: Value, barPtrWithWalk: Value,
                         withDefault: string, inner: Value): Value {
    Struct([
      Field("EmbeddedUnset", true, WalkTag, embedded),
      Field("Foo", true, "", Num(foo)),
      Field("Bar", true, "", Num(bar)),
      Field("BarPtr", true, "", barPtr),
      Field("BarPtrWithWalk", true, WalkTag, barPtrWithWalk),
      Field("WithDefault", true, "", Str(withDefault)),
      Field("Struct", true, WalkTag, inner)
    ])
  }

  /**
   * `StructUnset` with `Foo` set to `foo`, every other number field (and
   * pointee) `n` and every string `s`.  MustSet leaves it with n = 1, s = "foo"
   * and Foo = 1, or Foo = 123 where a JSON default gives `{"Foo":123}`.
   */
  function StructUnsetSet(n: int, foo: int, s: string): Value {
    MkStructUnset(Embedded(n, s), foo, n, Ptr(Num(n)), Ptr(Num(n)), s, Embedded(n, s))
  }

  /** `StructUnset` as walking it leaves it: only the `-` strings keep `s`. */
  function StructUnsetCleared(s: string): Value {
    MkStructUnset(Embedded(0, s), 0, 0, NilPtr, Ptr(Num(0)), "", Embedded(0, s))
  }

  /** A walked `*int` keeps pointing, at 0 (unset_test.go:46). */
  lemma WalkedIntPointer(n: int)
    ensures ClearField(Ptr(Num(n)), true, true) == Ptr(Num(0))
  {
  }

  lemma EmbeddedWalk(n: int, s: string)
    ensures ClearField(Embedded(n, s), true, true) == Embedded(0, s)
  {
    assert ZeroOf(Embedded(n, s)).fields[0].value == Num(0);
    assert ClearFields(Embedded(n, s), true) == Embedded(0, s).fields;
  }

  /**
   * Walking a StructUnset (unset_test.go:43-51): untagged fields become zero,
   * the walked pointer keeps pointing at a zero int, and the `-` fields of the
   * nested structs keep "foo".
   */
  lemma StructUnsetWalk(n: int, foo: int, s: string)
    ensures ClearField(StructUnsetSet(n, foo, s), true, true) == StructUnsetCleared(s)
  {
    var v := StructUnsetSet(n, foo, s);
    assert v.fields[3] != ZeroOf(v).fields[3];
    StructUnsetFields(n, foo, s);
  }

  lemma StructUnsetFields(n: int, foo: int, s: string)
    ensures ClearFields(StructUnsetSet(n, foo, s), true) == StructUnsetCleared(s).fields
  {
    var v, e := StructUnsetSet(n, foo, s), StructUnsetCleared(s).fields;
    var r := ClearFields(v, true);
    forall i | 0 <= i < 7 ensures r[i] == e[i] {
      if i == 0 || i == 6 {
        EmbeddedWalk(n, s);
      } else if i == 4 {
        WalkedIntPointer(n);
      } else {
        PlainFieldBecomesZero(v, i);
      }
    }
  }

  /**
   * An unexported field is never changed, even tagged `walk`: `private` holds
   * `StructUnset{WithDefault: "test"}` (unset_test.go:38, 42).
   */
  lemma PrivateFieldKept()
    ensures var private := MkStructUnset(Embedded(0, ""), 0, 0, NilPtr, NilPtr, "test", Embedded(0, ""));
      var obj := Struct([Field("private", false, WalkTag, private)]);
      ClearFields(obj, true) == obj.fields
  {
  }

  /** A pointer field without walk becomes nil (unset_test.go:47). */
  lemma StructPtrNoWalkBecomesNil()
    ensures ClearField(Ptr(StructUnsetSet(1, 1, "foo")), true, false) == NilPtr
  {
  }

  /** `SliceOfIntPtrPtr` with element 1 set to a pointer to a nil `*int` (unset_test.go:36-37, 56). */
  lemma SliceOfIntPtrPtrWalk()
    ensures ClearField(Slice([Ptr(Ptr(Num(1))), Ptr(NilPtr), Ptr(Ptr(Num(3)))]), true, true)
         == Slice([Ptr(Ptr(Num(0))), Ptr(NilPtr), Ptr(Ptr(Num(0)))])
  {
  }

  /** `MapOfInt` and `MapOfIntPtr` (unset_test.go:68-69). */
  lemma MapOfIntWalk()
    ensures ClearField(Map(map["int1" := Num(1)]), true, true) == Map(map["int1" := Num(0)])
    ensures ClearField(Map(map["int1" := Ptr(Num(1))]), true, true) == Map(map["int1" := Ptr(Num(0))])
  {
  }

  /** `MapOfStruct` (default `{"Struct3": {"Foo":123}}`): the entry is walked by copy and write-back and keeps "foo" (unset_test.go:70, 81). */
  lemma MapOfStructWalk()
    ensures ClearField(Map(map["Struct3" := StructUnsetSet(1, 123, "foo")]), true, true)
         == Map(map["Struct3" := StructUnsetCleared("foo")])
  {
    StructUnsetWalk(1, 123, "foo");
    WalkedSingletonMap("Struct3", StructUnsetSet(1, 123, "foo"));
  }

  /**
   * `MapOfStructPtr` and `MapOfMapOfStruct`: a pointer entry keeps its pointer
   * and its struct is walked; an inner map is copied, walked and written back,
   * and its struct entry in turn (unset_test.go:71, 77, 82, 84).
   */
  lemma NestedMapOfStructWalk()
    ensures ClearField(Map(map["Struct3" := Ptr(StructUnsetSet(1, 123, "foo"))]), true, true)
         == Map(map["Struct3" := Ptr(StructUnsetCleared("foo"))])
    ensures ClearField(Map(map["map1" := Map(map["Struct3" := StructUnsetSet(1, 123, "foo")])]), true, true)
         == Map(map["map1" := Map(map["Struct3" := StructUnsetCleared("foo")])])
  {
    var inner := Map(map["Struct3" := StructUnsetSet(1, 123, "foo")]);
    StructUnsetWalk(1, 123, "foo");
    WalkedSingletonMap("Struct3", Ptr(StructUnsetSet(1, 123, "foo")));
    WalkedSingletonMap("Struct3", StructUnsetSet(1, 123, "foo"));
    WalkedSingletonMap("map1", inner);
    assert ClearEntry(inner) == ClearField(inner, true, true);
  }

  /** Walking a one-entry map walks its one entry. */
  lemma WalkedSingletonMap(k: Key, v: Value)
    ensures ClearField(Map(map[k := v]), true, true) == Map(map[k := ClearEntry(v)])
  {
  }

  /** `SliceSetNil` and `MapSetNil`: without walk, a slice or map becomes nil (unset_test.go:65, 78). */
  lemma ContainersWithoutWalkBecomeNil()
    ensures ClearField(Slice([StructUnsetSet(1, 123, "foo")]), true, false) == NilSlice
    ensures ClearField(Map(map["Struct3" := StructUnsetSet(1, 123, "foo")]), true, false) == NilMap
  {
  }
}
