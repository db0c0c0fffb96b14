/**
 * `SoftDeleteQueryBehavior`, attached to an active query: it caches the
 * "deleted" and "not deleted" filter conditions, derives them from the record
 * class's soft-delete configuration while the cache is empty, and adds them,
 * alias-qualified, to the owner query.
 */
module SoftDeleteQuery {
  import opened Results
  import opened PhpArray
  import opened ConditionDerivation
  import opened Normalization
  import opened PhpString
  import FilterValue

  /** A condition added to the query, as a WHERE condition or as a relation's ON condition. */
  datatype Filter = Where(condition: Array) | On(condition: Array)

  /**
   * The owner query, reduced to what the behaviour uses: whether it has
   * `andOnCondition`, the aliases `getTablesUsedInFrom()` lists (None when it
   * has no such method), the static model instance of its record class, and
   * the conditions AND-ed onto it so far.
   */
  class Query {
    const hasOnCondition: bool
    const tablesUsedInFrom: Option<seq<string>>
    const model: ModelInstance
    var filters: seq<Filter>

    constructor (hasOnCondition: bool, tablesUsedInFrom: Option<seq<string>>, model: ModelInstance)
      ensures this.hasOnCondition == hasOnCondition
      ensures this.tablesUsedInFrom == tablesUsedInFrom
      ensures this.model == model
      ensures filters == []
    {
      this.hasOnCondition := hasOnCondition;
      this.tablesUsedInFrom := tablesUsedInFrom;
      this.model := model;
      filters := [];
    }

    /** Where a condition added by the behaviour goes on this query. */
    function Placed(c: Array): (f: Filter)
      ensures f.condition == c
      ensures f.On? <==> hasOnCondition
    {
      if hasOnCondition then On(c) else Where(c)
    }

    method AndWhere(c: Array) returns (q: Query)
      modifies this
      ensures q == this
      ensures filters == old(filters) + [Where(c)]
    {
      filters := filters + [Where(c)];
      q := this;
    }

    method AndOnCondition(c: Array) returns (q: Query)
      requires hasOnCondition
      modifies this
      ensures q == this
      ensures filters == old(filters) + [On(c)]
    {
      filters := filters + [On(c)];
      q := this;
    }
  }

  class SoftDeleteQueryBehavior {
    const owner: Query
    /** `_deletedCondition`; empty means "not computed yet". */
    var deletedCondition: Array
    /** `_notDeletedCondition`; empty means "not computed yet". */
    var notDeletedCondition: Array

    constructor (owner: Query)
      ensures this.owner == owner
      ensures deletedCondition == [] && notDeletedCondition == []
    {
      this.owner := owner;
      deletedCondition := [];
      notDeletedCondition := [];
    }

    /** What `getDeletedCondition()` returns in the current state. */
    ghost function DeletedCondition(): Array
      reads this
    {
      if |deletedCondition| > 0 then deletedCondition else DeletedConditionOf(owner.model)
    }

    /** What `getNotDeletedCondition()` returns, or throws, in the current state. */
    ghost function NotDeletedCondition(): Result<Array, ConfigError>
      reads this
    {
      if |notDeletedCondition| > 0 then Ok(notDeletedCondition) else NotDeletedConditionOf(owner.model)
    }

    /**
     * The not-deleted cache after `getNotDeletedCondition()` has run on the
     * cache `cache`: an empty cache is filled with the default when it can be
     * derived, and stays empty when deriving it throws.
     */
    ghost function CachedNotDeleted(cache: Array): Array {
      if |cache| > 0 then cache
      else if NotDeletedConditionOf(owner.model).Ok? then NotDeletedConditionOf(owner.model).value
      else []
    }

    /**
     * `getDeletedCondition()`: computes the default only while the cache is
     * empty, and keeps it; the value it returns is the same on every call.
     */
    method GetDeletedCondition() returns (c: Array)
      modifies this`deletedCondition
      ensures deletedCondition ==
        if |old(deletedCondition)| > 0 then old(deletedCondition) else DeletedConditionOf(owner.model)
      ensures c == deletedCondition
      ensures c == old(DeletedCondition()) && DeletedCondition() == old(DeletedCondition())
    {
      if |deletedCondition| == 0 {
        deletedCondition := DefaultDeletedCondition();
      }
      c := deletedCondition;
    }

    /** `setDeletedCondition()`; setting [] brings back the default. */
    method SetDeletedCondition(c: Array)
      modifies this`deletedCondition
      ensures deletedCondition == c
      ensures DeletedCondition() == if |c| > 0 then c else DeletedConditionOf(owner.model)
    {
      deletedCondition := c;
    }

    /**
     * `getNotDeletedCondition()`: computes the default only while the cache is
     * empty; when the default cannot be derived it throws and caches nothing.
     */
    method GetNotDeletedCondition() returns (r: Result<Array, ConfigError>)
      modifies this`notDeletedCondition
      ensures |old(notDeletedCondition)| > 0 ==>
        r == Ok(old(notDeletedCondition)) && notDeletedCondition == old(notDeletedCondition)
      ensures |old(notDeletedCondition)| == 0 ==>
        r == NotDeletedConditionOf(owner.model) &&
        notDeletedCondition == (if r.Ok? then r.value else [])
      ensures r == old(NotDeletedCondition()) && NotDeletedCondition() == old(NotDeletedCondition())
    {
      if |notDeletedCondition| == 0 {
        var d := DefaultNotDeletedCondition();
        if d.Err? {
          return Err(d.error);
        }
        notDeletedCondition := d.value;
      }
      r := Ok(notDeletedCondition);
    }

    /** `setNotDeletedCondition()`; setting [] brings back the default. */
    method SetNotDeletedCondition(c: Array)
      modifies this`notDeletedCondition
      ensures notDeletedCondition == c
      ensures NotDeletedCondition() == if |c| > 0 then Ok(c) else NotDeletedConditionOf(owner.model)
    {
      notDeletedCondition := c;
    }

    /** `deleted()`: adds the deleted condition to the owner query. */
    method Deleted() returns (q: Query)
      modifies this`deletedCondition, owner
      ensures q == owner
      ensures owner.filters == old(owner.filters) + [owner.Placed(Normalized(old(DeletedCondition()), owner.tablesUsedInFrom))]
      ensures DeletedCondition() == old(DeletedCondition())
      ensures deletedCondition ==
        if |old(deletedCondition)| > 0 then old(deletedCondition) else DeletedConditionOf(owner.model)
    {
      var c := GetDeletedCondition();
      q := AddFilterCondition(c);
    }

    /** `notDeleted()`: adds the not-deleted condition, or throws and adds nothing. */
    method NotDeleted() returns (r: Result<Query, ConfigError>)
      modifies this`notDeletedCondition, owner
      ensures old(NotDeletedCondition()).Err? ==>
        r == Err(old(NotDeletedCondition()).error) && owner.filters == old(owner.filters)
      ensures old(NotDeletedCondition()).Ok? ==>
        r == Ok(owner) &&
        owner.filters == old(owner.filters) + [owner.Placed(Normalized(old(NotDeletedCondition()).value, owner.tablesUsedInFrom))]
      ensures NotDeletedCondition() == old(NotDeletedCondition())
      ensures notDeletedCondition == CachedNotDeleted(old(notDeletedCondition))
    {
      var c := GetNotDeletedCondition();
      if c.Err? {
        return Err(c.error);
      }
      var q := AddFilterCondition(c.value);
      r := Ok(q);
    }

    /**
     * `filterDeleted($deleted)`: '' , null and [] apply `notDeleted()`, a value
     * whose integer cast is non-zero applies `deleted()`, anything else returns
     * the owner query untouched.
     */
    method FilterDeleted(v: FilterValue.Mixed) returns (r: Result<Query, ConfigError>)
      modifies this`deletedCondition, this`notDeletedCondition, owner
      ensures FilterValue.ScopeOf(v) == FilterValue.OnlyNotDeleted ==>
        (old(NotDeletedCondition()).Err? ==>
          r == Err(old(NotDeletedCondition()).error) && owner.filters == old(owner.filters)) &&
        (old(NotDeletedCondition()).Ok? ==>
          r == Ok(owner) &&
          owner.filters == old(owner.filters) + [owner.Placed(Normalized(old(NotDeletedCondition()).value, owner.tablesUsedInFrom))])
      ensures FilterValue.ScopeOf(v) == FilterValue.OnlyDeleted ==>
        r == Ok(owner) &&
        owner.filters == old(owner.filters) + [owner.Placed(Normalized(old(DeletedCondition()), owner.tablesUsedInFrom))]
      ensures FilterValue.ScopeOf(v) == FilterValue.OnlyNotDeleted ==>
        notDeletedCondition == CachedNotDeleted(old(notDeletedCondition)) &&
        deletedCondition == old(deletedCondition)
      ensures FilterValue.ScopeOf(v) == FilterValue.OnlyDeleted ==>
        deletedCondition ==
          (if |old(deletedCondition)| > 0 then old(deletedCondition) else DeletedConditionOf(owner.model)) &&
        notDeletedCondition == old(notDeletedCondition)
      ensures FilterValue.ScopeOf(v) == FilterValue.All ==>
        r == Ok(owner) && owner.filters == old(owner.filters) &&
        deletedCondition == old(deletedCondition) && notDeletedCondition == old(notDeletedCondition)
      ensures DeletedCondition() == old(DeletedCondition())
      ensures NotDeletedCondition() == old(NotDeletedCondition())
    {
      if FilterValue.IsStrictlyEmpty(v) {
        r := NotDeleted();
        return;
      }
      if FilterValue.IntCast(v) != 0 {
        var q := Deleted();
        return Ok(q);
      }
      r := Ok(owner);
    }

    /**
     * `addFilterCondition($condition)`: appends exactly one condition, the
     * normalised one, as an ON condition when the owner has `andOnCondition`
     * and as a WHERE condition otherwise.
     */
    method AddFilterCondition(c: Array) returns (q: Query)
      modifies owner
      ensures q == owner
      ensures owner.filters == old(owner.filters) + [owner.Placed(Normalized(c, owner.tablesUsedInFrom))]
    {
      var n := NormalizeFilterCondition(c);
      if owner.hasOnCondition {
        q := owner.AndOnCondition(n);
      } else {
        q := owner.AndWhere(n);
      }
    }

    /**
     * `defaultDeletedCondition()`: the soft-delete attribute values, in order,
     * with every callable replaced by its result on the model instance.
     */
    method DefaultDeletedCondition() returns (c: Array)
      ensures c == DeletedConditionOf(owner.model)
      ensures Keys(c) == Keys(owner.model.softDeleteAttributeValues)
    {
      var m := owner.model;
      var values := m.softDeleteAttributeValues;
      c := [];
      for i := 0 to |values|
        invariant c == Resolved(values[..i], m)
      {
        var (attribute, value) := values[i];
        if value.Callable? {
          value := m.invoke(value.id);
        }
        assert values[..i + 1][..i] == values[..i];
        c := Put(c, attribute, value);
      }
      assert values[..|values|] == values;
      DeletedConditionEntries(m);
    }

    /**
     * `defaultNotDeletedCondition()`: the restore values with callables
     * evaluated when any are configured; otherwise every soft-delete value
     * inverted, failing on the first one that cannot be.
     */
    method DefaultNotDeletedCondition() returns (r: Result<Array, ConfigError>)
      ensures r == NotDeletedConditionOf(owner.model)
      ensures r.Ok? && |owner.model.restoreAttributeValues| == 0 ==>
        Keys(r.value) == Keys(owner.model.softDeleteAttributeValues)
      ensures r.Ok? && |owner.model.restoreAttributeValues| > 0 ==>
        Keys(r.value) == Keys(owner.model.restoreAttributeValues)
    {
      var m := owner.model;
      var c: Array := [];
      if |m.restoreAttributeValues| == 0 {
        var values := m.softDeleteAttributeValues;
        for i := 0 to |values|
          invariant Inverted(values[..i]) == Ok(c)
        {
          var (attribute, value) := values[i];
          var restoreValue;
          match value {
            case Bool(b) =>
              restoreValue := Bool(!b);
            case Int(n) =>
              if n == 1 {
                restoreValue := Int(0);
              } else if n == 0 {
                restoreValue := Int(1);
              } else {
                restoreValue := Int(n + 1);
              }
            case Callable(_) =>
              restoreValue := Null;
            case _ =>
              assert Invert(values[i].1).Err?;
              InvertedEntries(values);
              assert Inverted(values).error == InvalidConfig;
              return Err(InvalidConfig);
          }
          assert values[..i + 1][..i] == values[..i];
          c := Put(c, attribute, restoreValue);
        }
        assert values[..|values|] == values;
        NotDeletedByInversion(m);
      } else {
        var values := m.restoreAttributeValues;
        for i := 0 to |values|
          invariant c == Resolved(values[..i], m)
        {
          var (attribute, value) := values[i];
          if value.Callable? {
            value := m.invoke(value.id);
          }
          assert values[..i + 1][..i] == values[..i];
          c := Put(c, attribute, value);
        }
        assert values[..|values|] == values;
        NotDeletedByRestoreValues(m);
      }
      r := Ok(c);
    }

    /**
     * `normalizeFilterCondition($condition)`: each key that is not an integer,
     * not numeric and has no '.' is unset and re-appended as
     * `alias.[[key]]` (or `alias.key` when it already holds `[[`), the alias
     * being the first table of the FROM part.
     */
    method NormalizeFilterCondition(condition: Array) returns (r: Array)
      ensures r == Normalized(condition, owner.tablesUsedInFrom)
    {
      r := condition;
      if owner.tablesUsedInFrom.Some? {
        var fromTables := owner.tablesUsedInFrom.value;
        var alias := if |fromTables| > 0 then fromTables[0] else "";
        for i := 0 to |condition|
          invariant r == NormalizedPrefix(condition, i, alias)
        {
          var (attribute, value) := condition[i];
          if attribute.IntKey? || IsNumeric(attribute.s) || '.' in attribute.s {
            continue;
          }
          r := Unset(r, attribute);
          var name := attribute.s;
          if !HasDoubleBracket(name) {
            name := "[[" + name + "]]";
          }
          r := Put(r, StrKey(alias + "." + name), value);
        }
      }
    }
  }
}
