/**
 * How the query behaviour derives its two default filter conditions from the
 * soft-delete configuration of the record class: the "deleted" condition is
 * the soft-delete attribute values with callables evaluated, the "not deleted"
 * condition is the explicit restore values (evaluated the same way) or, when
 * none are configured, the soft-delete values inverted one by one.
 */
module ConditionDerivation {
  import opened Results
  import opened PhpArray

  /** InvalidConfigException, raised when no restore value can be derived. */
  datatype ConfigError = InvalidConfig

  /**
   * The static model instance of the record class the owner query selects:
   * its `softDeleteAttributeValues` and `restoreAttributeValues`, and what each
   * callable returns when called with this instance.
   */
  datatype ModelInstance = ModelInstance(
    softDeleteAttributeValues: Array,
    restoreAttributeValues: Array,
    invoke: nat -> Value)

  /** A callable is called with the model instance; any scalar or null is kept as it is. */
  function Resolve(v: Value, m: ModelInstance): Value {
    if v.Callable? then m.invoke(v.id) else v
  }

  /** `foreach ($values as $attribute => $value) $condition[$attribute] = resolve($value)` */
  function Resolved(a: Array, m: ModelInstance): Array {
    if a == [] then []
    else
      var n := |a| - 1;
      Put(Resolved(a[..n], m), a[n].0, Resolve(a[n].1, m))
  }

  /**
   * The restore value derived from one soft-delete value: bools are negated,
   * 1 and 0 swap, any other integer is incremented, a callable gives null, and
   * every other value cannot be inverted.
   */
  function Invert(v: Value): (r: Result<Value, ConfigError>)
    ensures r.Ok? <==> v.Bool? || v.Int? || v.Callable?
    ensures r.Ok? ==> r.value != v
    ensures v.Bool? ==> r.Ok? && r.value.Bool?
    ensures v.Int? ==> r.Ok? && r.value.Int?
  {
    match v
    case Bool(b) => Ok(Bool(!b))
    case Int(n) => Ok(Int(if n == 1 then 0 else if n == 0 then 1 else n + 1))
    case Callable(_) => Ok(Null)
    case _ => Err(InvalidConfig)
  }

  /**
   * On flags the inversion is its own inverse: true and false swap, and so do
   * 1 and 0; any other integer n maps to n + 1, which is never inverted back.
   */
  lemma FlagInversionRoundTrip(v: Value)
    requires v.Bool? || v == Int(0) || v == Int(1)
    ensures Invert(Invert(v).value) == Ok(v)
    ensures v.Bool? ==> Invert(v) == Ok(Bool(!v.b))
  {
  }

  /** The inversion loop; the first value that cannot be inverted aborts it. */
  function Inverted(a: Array): Result<Array, ConfigError> {
    if a == [] then Ok([])
    else
      var n := |a| - 1;
      match Inverted(a[..n])
      case Err(e) => Err(e)
      case Ok(c) =>
        match Invert(a[n].1)
        case Err(e) => Err(e)
        case Ok(w) => Ok(Put(c, a[n].0, w))
  }

  /** `defaultDeletedCondition()` */
  function DeletedConditionOf(m: ModelInstance): Array {
    Resolved(m.softDeleteAttributeValues, m)
  }

  /** `defaultNotDeletedCondition()`: explicit restore values win over inversion. */
  function NotDeletedConditionOf(m: ModelInstance): Result<Array, ConfigError> {
    if |m.restoreAttributeValues| == 0 then Inverted(m.softDeleteAttributeValues)
    else Ok(Resolved(m.restoreAttributeValues, m))
  }

  /** Resolving keeps every key in its place and replaces only callables by their result. */
  lemma {:induction false} ResolvedEntries(a: Array, m: ModelInstance)
    ensures |Resolved(a, m)| == |a|
    ensures forall i :: 0 <= i < |a| ==> Resolved(a, m)[i] == (a[i].0, Resolve(a[i].1, m))
  {
    if a != [] {
      var n := |a| - 1;
      var p: Array := a[..n];
      ResolvedEntries(p, m);
      var c := Resolved(p, m);
      assert Keys(c) == Keys(p);
      assert a[n].0 !in Keys(p) by {
        forall j | 0 <= j < n ensures Keys(p)[j] != a[n].0 {
          assert Keys(p)[j] == a[j].0;
        }
      }
    }
  }

  /** The default deleted condition has the configured keys, in order, with callables evaluated. */
  lemma DeletedConditionEntries(m: ModelInstance)
    ensures Keys(DeletedConditionOf(m)) == Keys(m.softDeleteAttributeValues)
    ensures forall i :: 0 <= i < |m.softDeleteAttributeValues| ==>
      DeletedConditionOf(m)[i].1 == Resolve(m.softDeleteAttributeValues[i].1, m)
  {
    ResolvedEntries(m.softDeleteAttributeValues, m);
  }

  /**
   * Inversion succeeds exactly when every value can be inverted, and then
   * keeps every key in its place with the inverted value.
   */
  lemma {:induction false} InvertedEntries(a: Array)
    ensures Inverted(a).Ok? <==> forall i :: 0 <= i < |a| ==> Invert(a[i].1).Ok?
    ensures Inverted(a).Ok? ==>
      |Inverted(a).value| == |a| &&
      forall i :: 0 <= i < |a| ==> Inverted(a).value[i] == (a[i].0, Invert(a[i].1).value)
  {
    if a != [] {
      var n := |a| - 1;
      var p: Array := a[..n];
      InvertedEntries(p);
      assert forall i :: 0 <= i < n ==> p[i] == a[i];
      if Inverted(p).Ok? {
        var c := Inverted(p).value;
        assert Keys(c) == Keys(p);
        assert a[n].0 !in Keys(p) by {
          forall j | 0 <= j < n ensures Keys(p)[j] != a[n].0 {
            assert Keys(p)[j] == a[j].0;
          }
        }
      }
    }
  }

  /**
   * With no restore values configured, the not-deleted condition is derived
   * exactly when every soft-delete value is a bool, an int or a callable; it
   * then has the same keys in the same order, each with the inverted value.
   */
  lemma NotDeletedByInversion(m: ModelInstance)
    requires |m.restoreAttributeValues| == 0
    ensures NotDeletedConditionOf(m).Ok? <==>
      forall i :: 0 <= i < |m.softDeleteAttributeValues| ==>
        var v := m.softDeleteAttributeValues[i].1; v.Bool? || v.Int? || v.Callable?
    ensures NotDeletedConditionOf(m).Ok? ==>
      Keys(NotDeletedConditionOf(m).value) == Keys(m.softDeleteAttributeValues) &&
      forall i :: 0 <= i < |m.softDeleteAttributeValues| ==>
        NotDeletedConditionOf(m).value[i].1 == Invert(m.softDeleteAttributeValues[i].1).value
  {
    InvertedEntries(m.softDeleteAttributeValues);
  }

  /**
   * With restore values configured, the not-deleted condition is always
   * derived: exactly those values, in order, with callables evaluated.
   */
  lemma NotDeletedByRestoreValues(m: ModelInstance)
    requires |m.restoreAttributeValues| > 0
    ensures NotDeletedConditionOf(m).Ok?
    ensures Keys(NotDeletedConditionOf(m).value) == Keys(m.restoreAttributeValues)
    ensures forall i :: 0 <= i < |m.restoreAttributeValues| ==>
      NotDeletedConditionOf(m).value[i].1 == Resolve(m.restoreAttributeValues[i].1, m)
  {
    ResolvedEntries(m.restoreAttributeValues, m);
  }

  /**
   * When the not-deleted condition is derived by inversion, it constrains the
   * same attributes as the deleted condition, and every attribute configured
   * with a literal value gets a different value in the two conditions. So when
   * at least one attribute has a literal value, no row satisfies both; an
   * attribute configured with a callable (such as a timestamp) is not covered.
   */
  lemma ScopesExclusive(m: ModelInstance)
    requires |m.restoreAttributeValues| == 0
    requires NotDeletedConditionOf(m).Ok?
    ensures Keys(NotDeletedConditionOf(m).value) == Keys(DeletedConditionOf(m))
    ensures |DeletedConditionOf(m)| == |NotDeletedConditionOf(m).value| == |m.softDeleteAttributeValues|
    ensures forall i :: 0 <= i < |m.softDeleteAttributeValues| && !m.softDeleteAttributeValues[i].1.Callable? ==>
      NotDeletedConditionOf(m).value[i].1 != DeletedConditionOf(m)[i].1
  {
    DeletedConditionEntries(m);
    NotDeletedByInversion(m);
  }
}
