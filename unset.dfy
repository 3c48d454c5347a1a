/**
 * The default-removal engine of unset.go: specification functions on value
 * trees, and the imperative traversal proved against them.
 *
 * Go updates the caller's value in place through reflection.  Values here are
 * owned trees, so an in-place update of a field, slice element or map entry
 * is the replacement of that component in a local copy that the method
 * returns; the loops keep the source's order and structure.
 */
module Unsetting {
  import opened Values

  /** The `unset` tag value that opts a field out (unset.go:30). */
  const SkipTag := "-"
  /** The `unset` tag value that asks for a structural walk (unset.go:10). */
  const WalkTag := "walk"

  datatype Error = InvalidType

  datatype Result = Ok(value: Value) | Err(error: Error)

  /** How a call to MustUnset ends: it either returns or panics with the error. */
  datatype Completion = Returned(after: Value) | Panicked(reason: Error)

  // ---------------------------------------------------------------------
  // Specification
  // ---------------------------------------------------------------------

  /** Number of non-nil pointer levels above the first non-pointer. */
  function Depth(v: Value): nat {
    if v.Ptr? then 1 + Depth(v.target) else 0
  }

  /**
   * What `indirect` reaches: the value after every pointer level is followed.
   * Following a nil pointer yields the invalid reflect.Value, here None.
   */
  function Target(v: Value): (r: Option<Value>)
    ensures r.Some? ==> !IsPointer(r.value)
  {
    match v
    case NilPtr => None
    case Ptr(t) => Target(t)
    case _ => Some(v)
  }

  /** `v` with whatever its pointer chain leads to replaced by `s`: the in-place update of the pointee. */
  function WithTarget(v: Value, s: Value): (r: Value)
    ensures Depth(r) == Depth(v) + Depth(s)
    ensures Target(r) == Target(s)
  {
    if v.Ptr? then Ptr(WithTarget(v.target, s)) else s
  }

  /**
   * The new value of a field after `unsetField(field, walk)`, where `canSet`
   * is `field.CanSet()`.
   */
  function ClearField(v: Value, canSet: bool, walk: bool): (r: Value)
    ensures !canSet ==> r == v
    ensures canSet && !walk ==> IsZero(r)
    ensures IsZero(v) ==> r == v
    decreases v, 1
  {
    IsInitialIffIsZero(v);
    if !canSet || IsInitial(v) then v
    else if !walk then ZeroOf(v)
    else match v
      case Ptr(t) => Ptr(ClearField(t, true, true))
      case Struct(_) => Struct(ClearFields(v, true))
      case Slice(s) => Slice(seq(|s|, j requires 0 <= j < |s| => ClearField(s[j], true, true)))
      case Map(m) => Map(map k | k in m :: ClearEntry(m[k]))
      case _ => ZeroOf(v)
  }

  /**
   * The new fields of a struct after `unsetStruct(obj)`.  A field can be set
   * when it is exported and the struct is addressable.
   */
  function ClearFields(obj: Value, addressable: bool): (r: seq<Field>)
    requires obj.Struct?
    ensures SameLayout(r, obj.fields)
    decreases obj, 0
  {
    var fs := obj.fields;
    seq(|fs|, i requires 0 <= i < |fs| =>
      if fs[i].tag == SkipTag then fs[i]
      else fs[i].(value := ClearField(fs[i].value, addressable && fs[i].exported, fs[i].tag == WalkTag)))
  }

  /** The new value stored under a key of a walked map (unset.go:72-83). */
  function ClearEntry(mv: Value): (r: Value)
    ensures SameKind(r, mv) && r.Ptr? == mv.Ptr?
    ensures IsScalar(mv) ==> IsZero(r)
    decreases mv, 2
  {
    match mv
    case NilPtr => mv
    case Ptr(t) => Ptr(ClearField(t, true, true))
    case Struct(_) | NilSlice | Slice(_) | NilMap | Map(_) => ClearField(mv, true, true)
    case _ => ZeroOf(mv)
  }

  /**
   * What `Unset(obj)` returns, with the new value of `obj` on success.  The
   * fields of the struct reached can be set only when it was reached through
   * a pointer.
   */
  function UnsetResult(obj: Value): (r: Result)
    ensures r.Ok? ==> Depth(r.value) == Depth(obj) && Target(r.value).Some? && Target(r.value).value.Struct?
  {
    var t := Target(obj);
    if t.Some? && t.value.Struct? then Ok(WithTarget(obj, Struct(ClearFields(t.value, obj.Ptr?))))
    else Err(InvalidType)
  }

  // ---------------------------------------------------------------------
  // Implementation
  // ---------------------------------------------------------------------

  /** `indirect`: follow pointers until something else is reached. */
  method Indirect(v: Value) returns (r: Option<Value>)
    ensures r == Target(v)
  {
    r := Some(v);
    while r.Some? && IsPointer(r.value)
      invariant Target(v) == if r.Some? then Target(r.value) else None
      decreases if r.Some? then Depth(r.value) + 1 else 0
    {
      r := if r.value.Ptr? then Some(r.value.target) else None;
    }
  }

  /** `unsetField`: the new value of one field, element or map entry. */
  method UnsetField(field: Value, canSet: bool, unsetWalk: bool) returns (r: Value)
    ensures r == ClearField(field, canSet, unsetWalk)
    decreases field, 1
  {
    if !canSet {
      return field;
    }
    var isInitial := IsInitial(field);
    if isInitial {
      return field;
    }
    if !unsetWalk {
      return ZeroOf(field);
    }
    match field {
      case Ptr(t) =>
        var t' := UnsetField(t, true, true);
        r := Ptr(t');
      case Struct(_) =>
        var fields := UnsetStruct(field, true);
        r := Struct(fields);
      case Slice(_) =>
        r := UnsetElems(field);
      case Map(_) =>
        r := UnsetEntries(field);
      case _ =>
        r := ZeroOf(field);
    }
  }

  /** The walked-slice branch of `unsetField` (unset.go:66-69): every element, in place. */
  method UnsetElems(field: Value) returns (r: Value)
    requires field.Slice?
    ensures r == Slice(seq(|field.elems|, j requires 0 <= j < |field.elems| => ClearField(field.elems[j], true, true)))
    decreases field, 0
  {
    var s := field.elems;
    var elems := s;
    for j := 0 to |s|
      invariant |elems| == |s|
      invariant forall i :: 0 <= i < j ==> elems[i] == ClearField(s[i], true, true)
      invariant forall i :: j <= i < |s| ==> elems[i] == s[i]
    {
      var e := UnsetField(s[j], true, true);
      elems := elems[j := e];
    }
    r := Slice(elems);
  }

  /** The walked-map branch of `unsetField` (unset.go:70-84): every key, in any order. */
  method UnsetEntries(field: Value) returns (r: Value)
    requires field.Map?
    ensures r == Map(map k | k in field.entries :: ClearEntry(field.entries[k]))
    decreases field, 0
  {
    var m := field.entries;
    var out := m;
    var keys := m.Keys;
    while keys != {}
      invariant keys <= m.Keys && out.Keys == m.Keys
      invariant forall k :: k in m ==> out[k] == if k in keys then m[k] else ClearEntry(m[k])
      decreases keys
    {
      var e :| e in keys;
      out := UnsetMapIndex(out, e);
      keys := keys - {e};
    }
    r := Map(out);
  }

  /**
   * One iteration of the walked-map loop (unset.go:72-83): the entry under
   * `e` is walked as its kind requires.
   */
  method UnsetMapIndex(field: map<Key, Value>, e: Key) returns (updated: map<Key, Value>)
    requires e in field
    ensures updated == field[e := ClearEntry(field[e])]
    decreases field[e], 2
  {
    var mapValue := field[e];
    match mapValue {
      case NilPtr =>
        // Elem() of a nil pointer is the invalid Value, which cannot be set.
        updated := field;
        assert updated == field[e := mapValue];
      case Ptr(t) =>
        // The entry keeps the same pointer; only the pointee changes.
        var t' := UnsetField(t, true, true);
        updated := field[e := Ptr(t')];
      case Struct(_) | NilSlice | Slice(_) | NilMap | Map(_) =>
        // Map entries are not addressable: clear a copy and write it back.
        var copy := mapValue;
        var cleared := UnsetField(copy, true, true);
        updated := field[e := cleared];
      case _ =>
        updated := field[e := ZeroOf(mapValue)];
    }
  }

  /** `unsetStruct`: the new fields of a struct, processed in declaration order. */
  method UnsetStruct(obj: Value, addressable: bool) returns (fields: seq<Field>)
    requires obj.Struct?
    ensures fields == ClearFields(obj, addressable)
    decreases obj, 0
  {
    var t := obj.fields;
    fields := t;
    for i := 0 to |t|
      invariant |fields| == |t|
      invariant forall j :: 0 <= j < i ==> fields[j] == ClearFields(obj, addressable)[j]
      invariant forall j :: i <= j < |t| ==> fields[j] == t[j]
    {
      var unsetVal := t[i].tag;
      if unsetVal == SkipTag {
        continue;
      }
      var v := UnsetField(t[i].value, addressable && t[i].exported, unsetVal == WalkTag);
      fields := fields[i := t[i].(value := v)];
    }
  }

  /**
   * `Unset`: clear the struct `obj` points to.  Returns the error, if any,
   * and the new value of `obj`.
   */
  method Unset(obj: Value) returns (err: Option<Error>, after: Value)
    ensures err.Some? <==> UnsetResult(obj).Err?
    ensures err.Some? ==> err.value == UnsetResult(obj).error && after == obj
    ensures err.None? ==> after == UnsetResult(obj).value
  {
    var v := Indirect(obj);
    if v.None? || !v.value.Struct? {
      return Some(InvalidType), obj;
    }
    var fields := UnsetStruct(v.value, obj.Ptr?);
    after := WithTarget(obj, Struct(fields));
    err := None;
  }

  /** `MustUnset`: `Unset`, with an error turned into a panic. */
  method MustUnset(ptr: Value) returns (c: Completion)
    ensures c.Panicked? <==> UnsetResult(ptr).Err?
    ensures c.Panicked? ==> c.reason == InvalidType
    ensures c.Returned? ==> UnsetResult(ptr) == Ok(c.after)
  {
    var err, after := Unset(ptr);
    if err.Some? {
      return Panicked(err.value);
    }
    return Returned(after);
  }
}
