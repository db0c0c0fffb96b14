# Soft-delete query filter (yii2 ActiveRecord soft delete)

A Dafny model of `SoftDeleteQueryBehavior`, the query half of the
ActiveRecord soft-delete extension. A query behaviour is attached to an
active query. It adds two things to that query:

- the "deleted" scope: rows whose soft-delete attributes hold the values the
  record's `softDeleteAttributeValues` configure;
- the "not deleted" scope: rows that hold the restore values instead.

Both conditions are derived from the record class's configuration and cached
in the behaviour. They are qualified with the query's table alias and
AND-ed onto the query as an ON condition (relation queries) or a WHERE
condition. `filterDeleted` picks the scope from a loosely typed request value.

Files and modules:

- `php_array.dfy` has two modules.
  - `Results` holds Option and Result.
  - `PhpArray` models PHP's ordered array with unique integer or string keys
    (`Array`). It has `$a[$k] = $v` as `Put`, `unset($a[$k])` as `Unset`, and
    the attribute values (`Value`: bool, int, string, null, or a non-scalar
    callable).
- `php_string.dfy` (`PhpString`): `is_numeric` as a scanner over PHP's
  numeric-string grammar, and the `(int)` cast of a string.
- `condition_derivation.dfy` (`ConditionDerivation`): the record class's
  static model instance and the two default conditions as functions
  (`DeletedConditionOf`, `NotDeletedConditionOf`). It also has the value
  inversion rule (`Invert`) and the lemmas about all of these.
- `normalization.dfy` (`Normalization`): `normalizeFilterCondition` as a
  function over the loop's iterations (`NormalizedPrefix`, `Normalized`),
  with lemmas on the layout, keys, values and idempotence of the result.
- `filter_value.dfy` (`FilterValue`): the value `filterDeleted` receives, as
  a datatype. Its strict emptiness test, its integer cast and the branch taken
  (`ScopeOf`) are functions.
- `soft_delete_query_behavior.dfy` (`SoftDeleteQuery`): the owner query
  (class `Query`) and the behaviour (class `SoftDeleteQueryBehavior`).
  - Its fields are the two caches.
  - Getters, setters, `deleted`, `notDeleted`, `filterDeleted` and
    `addFilterCondition` are methods that change those fields or the query.
  - The three loops of the source (`defaultDeletedCondition`,
    `defaultNotDeletedCondition` and `normalizeFilterCondition`) are methods
    with `for` loops. Each is proved equal to its specification function.

Modelling choices:

- A callable is `Value.Callable(id)`. What it returns on the model instance
  is the instance's `invoke` function. A string is never called, because the
  source calls only non-scalar callables. So a string naming a function is
  copied as it is.
- `getModelInstance()` is the query's constant `model`.
- Where `method_exists` asks about the owner, the query has a flag:
  `hasOnCondition` for `andOnCondition`. `tablesUsedInFrom` is `None` when
  there is no `getTablesUsedInFrom`.
- The source throws `InvalidConfigException`. The model returns
  `Err(InvalidConfig)` instead.

The not-deleted condition inverts the raw `softDeleteAttributeValues`, not
the resolved deleted condition (src/SoftDeleteQueryBehavior.php:264-282).
So a callable gives `null` whatever it returns.

## Model

| member | source | states |
|---|---|---|
| `SoftDeleteQuery.SoftDeleteQueryBehavior.constructor` | src/SoftDeleteQueryBehavior.php:111-115 | both caches start empty |
| `SoftDeleteQuery.SoftDeleteQueryBehavior.GetDeletedCondition` | src/SoftDeleteQueryBehavior.php:120-127 | a non-empty cache is returned and kept as it is; an empty one is replaced by the default derived from the configuration; the returned value, and what a later call returns, never changes |
| `SoftDeleteQuery.SoftDeleteQueryBehavior.SetDeletedCondition` | src/SoftDeleteQueryBehavior.php:132-135 | overwrites the cache; a non-empty value is returned verbatim by later gets, `[]` re-enables the default |
| `SoftDeleteQuery.SoftDeleteQueryBehavior.GetNotDeletedCondition` | src/SoftDeleteQueryBehavior.php:142-149 | as for the deleted condition; when the default cannot be derived it fails with the configuration error and the cache stays empty |
| `SoftDeleteQuery.SoftDeleteQueryBehavior.SetNotDeletedCondition` | src/SoftDeleteQueryBehavior.php:154-157 | overwrites the cache; `[]` re-enables the default |
| `SoftDeleteQuery.SoftDeleteQueryBehavior.Deleted` | src/SoftDeleteQueryBehavior.php:164-167 | appends exactly the normalised deleted condition to the owner and returns the owner; an empty cache is filled with the default and a non-empty one kept, so the condition later calls use is unchanged |
| `SoftDeleteQuery.SoftDeleteQueryBehavior.NotDeleted` | src/SoftDeleteQueryBehavior.php:176-179 | appends exactly the normalised not-deleted condition and returns the owner, or fails with the configuration error and adds nothing; an empty cache is filled with the default when it can be derived and stays empty otherwise |
| `SoftDeleteQuery.SoftDeleteQueryBehavior.FilterDeleted` | src/SoftDeleteQueryBehavior.php:193-204 | strictly `''`, `null` or `[]` has the effect of `notDeleted()`; a non-zero integer cast has the effect of `deleted()`; in both cases its own empty cache is filled as the getter fills it and the other cache is untouched; anything else returns the owner with no condition added and both caches untouched |
| `SoftDeleteQuery.SoftDeleteQueryBehavior.AddFilterCondition` | src/SoftDeleteQueryBehavior.php:215-224 | appends exactly one condition, the normalised one, as ON condition when the owner has `andOnCondition` and as WHERE condition otherwise, and returns the owner |
| `SoftDeleteQuery.Query.Placed` | src/SoftDeleteQueryBehavior.php:219-223 | the added condition is an ON condition exactly when the owner has `andOnCondition`, and carries the given condition |
| `SoftDeleteQuery.Query.AndWhere` | src/SoftDeleteQueryBehavior.php:223 | the owner appends one WHERE condition and returns itself |
| `SoftDeleteQuery.Query.AndOnCondition` | src/SoftDeleteQueryBehavior.php:220 | the owner appends one ON condition and returns itself |
| `SoftDeleteQuery.SoftDeleteQueryBehavior.DefaultDeletedCondition` | src/SoftDeleteQueryBehavior.php:233-246 | the loop yields the deleted condition of the configuration, whose keys are the configured attributes in their order |
| `SoftDeleteQuery.SoftDeleteQueryBehavior.DefaultNotDeletedCondition` | src/SoftDeleteQueryBehavior.php:257-293 | the loops yield the not-deleted condition of the configuration, or the configuration error; its keys are those of the restore values when any are set, else those of the soft-delete values |
| `SoftDeleteQuery.SoftDeleteQueryBehavior.NormalizeFilterCondition` | src/SoftDeleteQueryBehavior.php:314-335 | the unset-and-re-append loop yields the normalised condition; the condition is unchanged without `getTablesUsedInFrom` |
| `ConditionDerivation.ResolvedEntries` | src/SoftDeleteQueryBehavior.php:238-243 | resolving keeps every key in its position and replaces each value by itself, or by the callable's result on the model instance |
| `ConditionDerivation.DeletedConditionEntries` | src/SoftDeleteQueryBehavior.php:233-246 | the default deleted condition has exactly the keys of `softDeleteAttributeValues` in the same order, scalars copied and callables evaluated |
| `ConditionDerivation.Invert` | src/SoftDeleteQueryBehavior.php:265-279 | a value has an inverse exactly when it is a bool, an int or a callable; the inverse always differs from the value; bools stay bools and ints stay ints |
| `ConditionDerivation.FlagInversionRoundTrip` | src/SoftDeleteQueryBehavior.php:265-274 | on bools and on 0/1 the inversion is its own inverse, and a bool maps to its negation |
| `ConditionDerivation.InvertedEntries` | src/SoftDeleteQueryBehavior.php:264-282 | the inversion loop succeeds exactly when every value can be inverted, and then keeps each key in place with its inverted value |
| `ConditionDerivation.NotDeletedByInversion` | src/SoftDeleteQueryBehavior.php:263-282 | with no restore values, the not-deleted condition exists exactly when every soft-delete value is a bool, int or callable, and has the same keys in order with each value inverted (so a string makes the derivation fail) |
| `ConditionDerivation.NotDeletedByRestoreValues` | src/SoftDeleteQueryBehavior.php:283-290 | with restore values, the not-deleted condition is always derived and is exactly those values, in order, with callables evaluated, and inversion is not applied |
| `ConditionDerivation.ScopesExclusive` | src/SoftDeleteQueryBehavior.php:257-293 | an inverted not-deleted condition constrains the same attributes as the deleted one, with a different value for every literal attribute |
| `Normalization.Qualify` | src/SoftDeleteQueryBehavior.php:326-329 | the new key is `alias.[[name]]`, or `alias.name` when the name already contains `[[`, and is never rewritten again |
| `Normalization.QualifiedKeyFresh` | src/SoftDeleteQueryBehavior.php:325-330 | without collisions, the key the loop appends is not yet in use |
| `Normalization.PrefixLayout` | src/SoftDeleteQueryBehavior.php:320-331 | after each iteration, the untouched entries come first, then the unvisited ones, then the rewritten ones |
| `Normalization.NormalizedLayout` | src/SoftDeleteQueryBehavior.php:320-331 | without key collisions, integer, numeric and dotted keys stay in place and every other entry moves to the end, in order, under its qualified key with its value; the key count is unchanged |
| `Normalization.PrefixKeys` | src/SoftDeleteQueryBehavior.php:320-331 | after any iteration, every unqualified key is one still waiting to be visited |
| `Normalization.NormalizedKeysQualified` | src/SoftDeleteQueryBehavior.php:316-331 | with a FROM alias, every key of the result is an integer, numeric or contains '.' |
| `Normalization.NormalizeIdempotent` | src/SoftDeleteQueryBehavior.php:314-335 | normalising a normalised condition changes nothing |
| `FilterValue.DocumentedCases` | tests/SoftDeleteQueryBehaviorTest.php:51-62 | `''`, `null` and `[]` select not-deleted; `'1'` and `true` select deleted; `'0'`, `false` and `'all'` select everything |
| `FilterValue.StrictComparison` | src/SoftDeleteQueryBehavior.php:195-203 | integer 0 is not empty and selects everything, any other integer selects deleted, and so does a non-empty array |
| `FilterValue.DigitStrings` | src/SoftDeleteQueryBehavior.php:195-203 | a digit string selects deleted exactly when one digit is not '0', and never selects not-deleted |
| `FilterValue.WordsSelectAll` | src/SoftDeleteQueryBehavior.php:199-203 | a string starting with anything but whitespace, a sign, a digit or a decimal point selects everything |
| `PhpArray.Put` | src/SoftDeleteQueryBehavior.php:330 | assigning to an existing key keeps its position and changes only its value; a new key is appended; keys stay unique |
| `PhpArray.Unset` | src/SoftDeleteQueryBehavior.php:325 | the key is gone afterwards, the other keys were all there before, and an absent key changes nothing |
| `PhpArray.UnsetEntry` | src/SoftDeleteQueryBehavior.php:325 | unsetting the key of one entry removes exactly that entry and keeps the others in order |

## Left out

- The record-side `SoftDeleteBehavior` is not part of this model. That
  covers `softDelete`, `restore`, `safeDelete`, replacing the regular delete,
  optimistic locking and defaults on new records. It is a separate class and
  is not modelled.
- The Yii query and SQL layer is left out: what `andWhere` and
  `andOnCondition` do to the SQL, query building and row counts. The owner
  query only records the conditions added to it. So the row-count scenarios
  of the tests (3 rows, 1 deleted) are not modelled.
- `getModelInstance()` (src/SoftDeleteQueryBehavior.php:300-303) calls the
  record class. The model replaces that call with the query's constant
  `model`.
- Calling a callable is left out. Its result is the model instance's `invoke`
  function: deterministic, and the same on every call.
- ConditionDerivation.Invert: does not model PHP's integer overflow.
  `PHP_INT_MAX + 1` becomes a float in PHP; here integers are unbounded.
- Floats are not modelled, neither as configured values nor as
  `filterDeleted` input. Arrays and objects that are not callable are not
  modelled as configured values either. Inverting any of them fails, as for
  strings.
- FilterValue.IntCast: the `(int)` cast of a string reads the sign and the
  leading digits only. PHP also reads a decimal and an exponent part, so the
  zero test differs in both directions:
  - `'1e-1'` and `'1e999'` cast to 0 in PHP (an infinite float casts to 0),
    but to 1 here;
  - `'0.5e1'`, `'.5e1'` and `'-.5e1'` cast to 5 or -5 in PHP, but to 0 here.
  - Saturation at `PHP_INT_MAX` is not modelled.
- FilterValue.WordsSelectAll: excludes strings that start with '.', since
  PHP reads a leading decimal point as part of a number (`'.5e1'` selects the
  deleted records).
- FilterValue.DigitStrings: holds for PHP as well, because a digit string too
  large for an integer saturates at `PHP_INT_MAX` and stays non-zero.
- Condition values that are arrays are not modelled, so IN lists such as
  `['status' => [1, 2]]` and operator-format conditions such as
  `['not', [...]]` cannot be passed to the setters. The model carries values
  without looking at them, so this does not change what the methods do.
- Objects are not modelled as `filterDeleted` input. PHP's `(int)` cast of
  an object gives 1, so one selects the deleted records.
- `is_numeric` is modelled without decimal-point forms. Keys with '.' pass
  through anyway, so the pass-through test is unaffected.
- PHP turns integer-like string keys into integer keys. The model keeps them
  as strings, but treats them as numeric, so normalisation leaves them alone
  just as PHP does.
- With an empty FROM table list, PHP warns about an undefined index and uses
  `null` as the alias. The model uses `""`, which is what `null`
  concatenates as.
- The text of the `InvalidConfigException` message is not modelled.
