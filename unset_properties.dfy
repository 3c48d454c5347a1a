/**
 * What the removal engine promises, proved about the specification functions
 * of module Unsetting (and so, through their postconditions, about the
 * methods Unset, UnsetStruct and UnsetField).
 */
module UnsetProperties {
  import opened Values
  import opened Unsetting

  // ---------------------------------------------------------------------
  // A reference description of a cleared value
  // ---------------------------------------------------------------------

  /**
   * `v` holds nothing more the engine would clear: without walk it is zero;
   * with walk every settable leaf it reaches is zero, while non-nil pointers,
   * slices and maps may remain.
   */
  predicate Cleared(v: Value, walk: bool)
    decreases v, 1
  {
    if !walk then IsZero(v)
    else match v
      case Ptr(t) => Cleared(t, true)
      case Struct(_) => StructCleared(v)
      case Slice(s) => forall i :: 0 <= i < |s| ==> Cleared(s[i], true)
      case Map(m) => forall k :: k in m ==> EntryCleared(m[k])
      case _ => IsZero(v)
  }

  /** Every exported field of the struct not tagged `-` is cleared according to its own tag. */
  predicate StructCleared(obj: Value)
    requires obj.Struct?
    decreases obj, 0
  {
    forall i :: 0 <= i < |obj.fields| ==>
      obj.fields[i].tag == SkipTag || !obj.fields[i].exported ||
      Cleared(obj.fields[i].value, obj.fields[i].tag == WalkTag)
  }

  /** A map entry the walk would leave as it is. */
  predicate EntryCleared(mv: Value)
    decreases mv, 2
  {
    match mv
    case NilPtr => true
    case Ptr(t) => Cleared(t, true)
    case Struct(_) | NilSlice | Slice(_) | NilMap | Map(_) => Cleared(mv, true)
    case _ => IsZero(mv)
  }

  /** A zero value counts as cleared in either mode. */
  lemma {:induction false} ZeroIsCleared(v: Value, walk: bool)
    requires IsZero(v)
    ensures Cleared(v, walk)
    decreases v
  {
    if walk && v.Struct? {
      forall i | 0 <= i < |v.fields|
        ensures Cleared(v.fields[i].value, v.fields[i].tag == WalkTag)
      {
        ZeroIsCleared(v.fields[i].value, v.fields[i].tag == WalkTag);
      }
    }
  }

  // ---------------------------------------------------------------------
  // The engine clears: every settable field ends up cleared
  // ---------------------------------------------------------------------

  lemma {:induction false} ClearFieldClears(v: Value, walk: bool)
    ensures Cleared(ClearField(v, true, walk), walk)
    decreases v, 1
  {
    if IsInitial(v) {
      IsInitialIffIsZero(v);
      ZeroIsCleared(v, walk);
    } else if !walk {
    } else {
      match v
      case Ptr(t) => ClearFieldClears(t, true);
      case Struct(_) => ClearFieldsClear(v);
      case Slice(s) =>
        forall i | 0 <= i < |s| ensures Cleared(ClearField(s[i], true, true), true) {
          ClearFieldClears(s[i], true);
        }
      case Map(m) =>
        forall k | k in m ensures EntryCleared(ClearEntry(m[k])) {
          ClearEntryClears(m[k]);
        }
      case _ =>
    }
  }

  lemma {:induction false} ClearFieldsClear(obj: Value)
    requires obj.Struct?
    ensures StructCleared(Struct(ClearFields(obj, true)))
    decreases obj, 0
  {
    var fs := obj.fields;
    var r := ClearFields(obj, true);
    forall i | 0 <= i < |fs| && fs[i].tag != SkipTag && fs[i].exported
      ensures Cleared(r[i].value, r[i].tag == WalkTag)
    {
      ClearFieldClears(fs[i].value, fs[i].tag == WalkTag);
    }
  }

  lemma {:induction false} ClearEntryClears(mv: Value)
    ensures EntryCleared(ClearEntry(mv))
    decreases mv, 2
  {
    match mv
    case NilPtr =>
    case Ptr(t) => ClearFieldClears(t, true);
    case Struct(_) | NilSlice | Slice(_) | NilMap | Map(_) =>
      ClearFieldClears(mv, true);
      ClearFieldKeepsType(mv, true, true);
    case _ =>
  }

  // ---------------------------------------------------------------------
  // Nothing already cleared is changed
  // ---------------------------------------------------------------------

  lemma {:induction false} ClearedIsFixpoint(v: Value, walk: bool)
    requires Cleared(v, walk)
    ensures ClearField(v, true, walk) == v
    decreases v, 1
  {
    if !walk || IsInitial(v) {
      IsInitialIffIsZero(v);
    } else {
      match v
      case Ptr(t) => ClearedIsFixpoint(t, true);
      case Struct(_) => StructClearedIsFixpoint(v);
      case Slice(s) =>
        forall i | 0 <= i < |s| ensures ClearField(s[i], true, true) == s[i] {
          ClearedIsFixpoint(s[i], true);
        }
        assert ClearField(v, true, true).elems == s;
      case Map(m) =>
        forall k | k in m ensures ClearEntry(m[k]) == m[k] {
          EntryClearedIsFixpoint(m[k]);
        }
        assert ClearField(v, true, true).entries == m;
      case _ =>
        IsInitialIffIsZero(v);
    }
  }

  lemma {:induction false} StructClearedIsFixpoint(obj: Value)
    requires obj.Struct? && StructCleared(obj)
    ensures ClearFields(obj, true) == obj.fields
    decreases obj, 0
  {
    var fs := obj.fields;
    forall i | 0 <= i < |fs| ensures ClearFields(obj, true)[i] == fs[i] {
      if fs[i].tag != SkipTag && fs[i].exported {
        ClearedIsFixpoint(fs[i].value, fs[i].tag == WalkTag);
      }
    }
  }

  lemma {:induction false} EntryClearedIsFixpoint(mv: Value)
    requires EntryCleared(mv)
    ensures ClearEntry(mv) == mv
    decreases mv, 2
  {
    match mv
    case NilPtr =>
    case Ptr(t) => ClearedIsFixpoint(t, true);
    case Struct(_) | NilSlice | Slice(_) | NilMap | Map(_) => ClearedIsFixpoint(mv, true);
    case _ => IsInitialIffIsZero(mv);
  }

  /** The fixed points of clearing a settable field are exactly the cleared values. */
  lemma ClearFieldFixpoints(v: Value, walk: bool)
    ensures ClearField(v, true, walk) == v <==> Cleared(v, walk)
  {
    ClearFieldClears(v, walk);
    if Cleared(v, walk) {
      ClearedIsFixpoint(v, walk);
    }
  }

  /** Clearing a field a second time changes nothing. */
  lemma ClearFieldIdempotent(v: Value, canSet: bool, walk: bool)
    ensures ClearField(ClearField(v, canSet, walk), canSet, walk) == ClearField(v, canSet, walk)
  {
    if canSet {
      ClearFieldClears(v, walk);
      ClearedIsFixpoint(ClearField(v, true, walk), walk);
    }
  }

  // ---------------------------------------------------------------------
  // The type of a value is preserved
  // ---------------------------------------------------------------------

  /**
   * The new value has the type of the old one: same kind and, for a struct,
   * same layout all the way down (they share their zero value).
   */
  lemma {:induction false} ClearFieldKeepsType(v: Value, canSet: bool, walk: bool)
    ensures ZeroOf(ClearField(v, canSet, walk)) == ZeroOf(v)
    decreases v, 1
  {
    if !canSet || IsInitial(v) {
    } else if !walk {
      ZeroOfIsInitial(v);
    } else if v.Struct? {
      ClearFieldsKeepType(v, true);
    } else if IsScalar(v) {
      ZeroOfIsInitial(v);
    }
  }

  lemma {:induction false} ClearFieldsKeepType(obj: Value, addressable: bool)
    requires obj.Struct?
    ensures ZeroOf(Struct(ClearFields(obj, addressable))) == ZeroOf(obj)
    decreases obj, 0
  {
    var fs := obj.fields;
    var r := ClearFields(obj, addressable);
    forall i | 0 <= i < |fs| ensures ZeroOf(r[i].value) == ZeroOf(fs[i].value) {
      if fs[i].tag != SkipTag {
        ClearFieldKeepsType(fs[i].value, addressable && fs[i].exported, fs[i].tag == WalkTag);
      }
    }
    assert ZeroOf(Struct(r)).fields == ZeroOf(obj).fields;
  }

  // ---------------------------------------------------------------------
  // Per-field rules of unsetStruct and unsetField
  // ---------------------------------------------------------------------

  /**
   * A field changes only when it is exported, its struct is addressable, it
   * is not tagged `-`, and it is not already zero.
   */
  lemma FieldChangesOnlyWhenAllowed(obj: Value, addressable: bool, i: nat)
    requires obj.Struct? && i < |obj.fields|
    ensures ClearFields(obj, addressable)[i] != obj.fields[i] ==>
      addressable && obj.fields[i].exported && obj.fields[i].tag != SkipTag && !IsZero(obj.fields[i].value)
  {
    var f := obj.fields[i];
    IsInitialIffIsZero(f.value);
    if !addressable || !f.exported {
      assert ClearField(f.value, addressable && f.exported, f.tag == WalkTag) == f.value;
    }
    if IsZero(f.value) {
      assert ClearField(f.value, addressable && f.exported, f.tag == WalkTag) == f.value;
    }
  }

  /**
   * A settable field without the `walk` tag (and not `-`) becomes the zero
   * value of its type; pointers, slices and maps become nil.
   */
  lemma PlainFieldBecomesZero(obj: Value, i: nat)
    requires obj.Struct? && i < |obj.fields|
    requires obj.fields[i].exported && obj.fields[i].tag != SkipTag && obj.fields[i].tag != WalkTag
    ensures ClearFields(obj, true)[i].value == ZeroOf(obj.fields[i].value)
    ensures IsZero(ClearFields(obj, true)[i].value)
    ensures IsPointer(obj.fields[i].value) ==> ClearFields(obj, true)[i].value == NilPtr
    ensures obj.fields[i].value.Slice? ==> ClearFields(obj, true)[i].value == NilSlice
    ensures obj.fields[i].value.Map? ==> ClearFields(obj, true)[i].value == NilMap
  {
  }

  /**
   * A walk keeps the skeleton: a non-nil pointer stays non-nil, a slice
   * keeps its length and a map its key set.
   */
  lemma WalkKeepsSkeleton(v: Value)
    ensures v.Ptr? ==> ClearField(v, true, true).Ptr?
    ensures v.Slice? ==>
      ClearField(v, true, true).Slice? && |ClearField(v, true, true).elems| == |v.elems|
    ensures v.Map? ==>
      ClearField(v, true, true).Map? && ClearField(v, true, true).entries.Keys == v.entries.Keys
  {
  }

  /** A walked pointer to a nil pointer is left unchanged. */
  lemma WalkedPointerToNil()
    ensures ClearField(Ptr(NilPtr), true, true) == Ptr(NilPtr)
  {
  }

  /**
   * A walked map: values under a pointer keep the pointer and have their
   * pointee walked; struct, slice and map values are walked and written
   * back; other values become zero.
   */
  lemma WalkedMapEntries(m: map<Key, Value>, k: Key)
    requires k in m
    ensures ClearField(Map(m), true, true).entries[k] == ClearEntry(m[k])
    ensures m[k].Ptr? ==> ClearField(Map(m), true, true).entries[k] == Ptr(ClearField(m[k].target, true, true))
    ensures IsComposite(m[k]) ==> ClearField(Map(m), true, true).entries[k] == ClearField(m[k], true, true)
    ensures IsScalar(m[k]) ==> IsZero(ClearField(Map(m), true, true).entries[k])
  {
  }

  /** A struct whose fields are all exported and untagged is reset to its zero value. */
  lemma {:induction false} UntaggedStructBecomesZero(obj: Value)
    requires obj.Struct?
    requires forall i :: 0 <= i < |obj.fields| ==>
      obj.fields[i].exported && obj.fields[i].tag != SkipTag && obj.fields[i].tag != WalkTag
    ensures Struct(ClearFields(obj, true)) == ZeroOf(obj)
    ensures UnsetResult(Ptr(obj)) == Ok(Ptr(ZeroOf(obj)))
  {
    var r := ClearFields(obj, true);
    forall i | 0 <= i < |obj.fields| ensures r[i] == ZeroOf(obj).fields[i] {
      PlainFieldBecomesZero(obj, i);
    }
    assert r == ZeroOf(obj).fields;
    assert Target(Ptr(obj)) == Some(obj);
  }

  // ---------------------------------------------------------------------
  // The entry point
  // ---------------------------------------------------------------------

  /** Any number of pointer levels, ending at a struct. */
  predicate ReachesStruct(v: Value) {
    match v
    case Struct(_) => true
    case Ptr(t) => ReachesStruct(t)
    case _ => false
  }

  /** Unset fails, with InvalidType, exactly when the pointers do not lead to a struct. */
  lemma {:induction false} UnsetFailsUnlessStruct(obj: Value)
    ensures UnsetResult(obj).Ok? <==> ReachesStruct(obj)
    ensures UnsetResult(obj).Err? ==> UnsetResult(obj).error == InvalidType
  {
    TargetIsStruct(obj);
  }

  lemma {:induction false} TargetIsStruct(v: Value)
    ensures (Target(v).Some? && Target(v).value.Struct?) <==> ReachesStruct(v)
  {
    if v.Ptr? {
      TargetIsStruct(v.target);
    }
  }

  /** A struct passed by value cannot be set: Unset succeeds and changes nothing. */
  lemma UnsetByValueChangesNothing(obj: Value)
    requires obj.Struct?
    ensures UnsetResult(obj) == Ok(obj)
  {
    assert ClearFields(obj, false) == obj.fields;
  }

  /**
   * Through a pointer, Unset keeps every pointer level and leaves the struct
   * reached with the same layout and cleared.
   */
  lemma UnsetClearsTarget(obj: Value)
    requires obj.Ptr? && ReachesStruct(obj)
    ensures UnsetResult(obj).Ok?
    ensures Depth(UnsetResult(obj).value) == Depth(obj)
    ensures Target(UnsetResult(obj).value).Some?
    ensures var s := Target(UnsetResult(obj).value).value;
      s.Struct? && SameLayout(s.fields, Target(obj).value.fields) && StructCleared(s)
  {
    TargetIsStruct(obj);
    ClearFieldsClear(Target(obj).value);
  }

  /**
   * `Target` reaches the end of the pointer chain: putting back what it found
   * rebuilds the argument.  It is None exactly when the chain ends at a nil
   * pointer, so the struct Unset clears is the one the argument points to, at
   * any depth.
   */
  lemma {:induction false} TargetGetPut(v: Value)
    ensures Target(v).Some? ==> WithTarget(v, Target(v).value) == v
    ensures Target(v).None? ==> WithTarget(v, NilPtr) == v
  {
    if v.Ptr? {
      TargetGetPut(v.target);
    }
  }

  lemma {:induction false} WithTargetTwice(v: Value, s: Value)
    requires !s.Ptr?
    ensures WithTarget(WithTarget(v, s), s) == WithTarget(v, s)
  {
    if v.Ptr? {
      WithTargetTwice(v.target, s);
    }
  }

  /** A second Unset changes nothing. */
  lemma UnsetIdempotent(obj: Value)
    requires UnsetResult(obj).Ok?
    ensures UnsetResult(UnsetResult(obj).value) == UnsetResult(obj)
  {
    var t := Target(obj).value;
    var s := Struct(ClearFields(t, obj.Ptr?));
    var after := WithTarget(obj, s);
    if obj.Ptr? {
      ClearFieldsClear(t);
      StructClearedIsFixpoint(s);
      WithTargetTwice(obj, s);
    } else {
      UnsetByValueChangesNothing(obj);
    }
  }
}
