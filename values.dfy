/**
 * Go-like values as seen through reflection by the unset engine, and the
 * zero-value test it relies on.
 *
 * A value is an owned tree: no two paths share memory.  Nil pointers, nil
 * slices and nil maps are constructors of their own, so the zero value of a
 * value's type can be computed from the value itself.  A struct value carries
 * its field descriptors (name, exportedness, `unset` tag), the part of the
 * struct type the engine reads.
 */
module Values {

  datatype Option<+T> = None | Some(value: T)

  /** Map keys are left untouched by the engine; strings stand for any key type. */
  type Key = string

  datatype Field = Field(name: string, exported: bool, tag: string, value: Value)

  datatype Value =
    | Num(n: int)                  // every integer kind
    | Str(s: string)
    | Bool(b: bool)
    | NilPtr
    | Ptr(target: Value)           // a non-nil pointer and what it points to
    | Struct(fields: seq<Field>)
    | NilSlice
    | Slice(elems: seq<Value>)     // a non-nil slice, possibly empty
    | NilMap
    | Map(entries: map<Key, Value>) // a non-nil map, possibly empty

  predicate IsPointer(v: Value) {
    v.NilPtr? || v.Ptr?
  }

  /** Kinds the walk of a map value copies out, clears and writes back. */
  predicate IsComposite(v: Value) {
    v.Struct? || v.NilSlice? || v.Slice? || v.NilMap? || v.Map?
  }

  /** Kinds the engine can only reset wholesale. */
  predicate IsScalar(v: Value) {
    v.Num? || v.Str? || v.Bool?
  }

  /** The two values have the same kind; nil and non-nil count as one kind. */
  predicate SameKind(a: Value, b: Value) {
    a.Num? == b.Num? && a.Str? == b.Str? && a.Bool? == b.Bool? &&
    IsPointer(a) == IsPointer(b) && a.Struct? == b.Struct? &&
    (a.NilSlice? || a.Slice?) == (b.NilSlice? || b.Slice?) &&
    (a.NilMap? || a.Map?) == (b.NilMap? || b.Map?)
  }

  /** `reflect.Zero(v.Type())`: the zero value of the type of `v`. */
  function ZeroOf(v: Value): (z: Value)
    ensures IsZero(z)
    ensures SameKind(z, v) && IsComposite(z) == IsComposite(v)
    ensures z.Struct? ==> SameLayout(z.fields, v.fields)
  {
    match v
    case Num(_) => Num(0)
    case Str(_) => Str("")
    case Bool(_) => Bool(false)
    case NilPtr | Ptr(_) => NilPtr
    case Struct(fs) =>
      Struct(seq(|fs|, i requires 0 <= i < |fs| => fs[i].(value := ZeroOf(fs[i].value))))
    case NilSlice | Slice(_) => NilSlice
    case NilMap | Map(_) => NilMap
  }

  /** Two field lists that describe the same struct type: same names, exportedness and tags. */
  predicate SameLayout(a: seq<Field>, b: seq<Field>) {
    |a| == |b| &&
    forall i :: 0 <= i < |a| ==>
      a[i].name == b[i].name && a[i].exported == b[i].exported && a[i].tag == b[i].tag
  }

  /**
   * Structural reference definition of a zero value: numeric 0, "", false,
   * nil pointer, nil slice, nil map, or a struct all of whose fields are zero.
   * A non-nil pointer, slice or map is never zero, even when what it refers
   * to is empty or zero.
   */
  predicate IsZero(v: Value) {
    match v
    case Num(n) => n == 0
    case Str(s) => s == ""
    case Bool(b) => !b
    case NilPtr | NilSlice | NilMap => true
    case Ptr(_) | Slice(_) | Map(_) => false
    case Struct(fs) => forall i :: 0 <= i < |fs| ==> IsZero(fs[i].value)
  }

  /**
   * The zero-value test called at unset.go:50: the value deep-equals the zero
   * value of its own type.
   */
  predicate IsInitial(v: Value)
    ensures v.Num? ==> (IsInitial(v) <==> v.n == 0)
    ensures v.Str? ==> (IsInitial(v) <==> v.s == "")
    ensures v.Bool? ==> (IsInitial(v) <==> !v.b)
    ensures v.NilPtr? || v.NilSlice? || v.NilMap? ==> IsInitial(v)
    ensures v.Ptr? || v.Slice? || v.Map? ==> !IsInitial(v)
  {
    v == ZeroOf(v)
  }

  /** The zero-value test agrees with the structural definition, in both directions. */
  lemma {:induction false} IsInitialIffIsZero(v: Value)
    ensures IsInitial(v) <==> IsZero(v)
  {
    match v
    case Struct(fs) =>
      var z := ZeroOf(v);
      if IsZero(v) {
        forall i | 0 <= i < |fs| ensures z.fields[i] == fs[i] {
          IsInitialIffIsZero(fs[i].value);
        }
        assert z.fields == fs;
      }
      if IsInitial(v) {
        forall i | 0 <= i < |fs| ensures IsZero(fs[i].value) {
          assert fs[i].value == z.fields[i].value == ZeroOf(fs[i].value);
          IsInitialIffIsZero(fs[i].value);
        }
      }
    case _ =>
  }

  /** The zero value of a type is the zero value of its own type. */
  lemma ZeroOfIsInitial(v: Value)
    ensures IsInitial(ZeroOf(v))
  {
  }
}
