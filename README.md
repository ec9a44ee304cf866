# Objectify core: deferred writes, field properties, array translation

This project models three sequential parts of Objectify, a mapper between Java
objects and the App Engine datastore's entities, and proves properties of them
in Dafny.

- **Deferrer** (`deferrer.dfy`, module `Deferral`). It is the per-session
  buffer of deferred writes. It keeps a map from key to pending intent:
  `Some(x)` is a save of `x` and `None` is a delete. It also keeps an ordered
  list of saves whose entities have no key yet, because the store will generate
  their id. `DeferSave` and `DeferDelete` overwrite the intent for a key, so
  the last intent wins, and they write through to the `Session`. `Undefer`
  drops a pending intent. `Flush` splits the map into a save batch and a delete
  batch, appends the auto-id saves, issues each batch only if it is non-empty,
  and empties both collections. The class invariant `Valid` says that every
  pending save is filed under its own key and that no auto-id save has one.
  The client methods `LastSaveWins`, `DeleteOverridesSave`, `AutoIdSaved` and
  `AutoIdUndeferred` prove the coalescing scenarios from the method contracts
  alone.
- **FieldProperty** (`field_property.dfy`, module `FieldProperties`). It is the
  property built for one entity field. Construction collects the set of load
  names and checks the `@AlsoLoad` entries. It rejects `@Index` together with
  `@Unindex`. It computes whether `@IgnoreSave` is conditional. It builds the
  condition objects of each annotation, checking each condition class's
  constructors and type arguments. Annotations are optional inputs. A condition
  class is a descriptor: its name, whether it has a `(Class, Field)`
  constructor, whether it has a no-arg constructor, and its two type
  arguments. Assignability between classes is a parameter.
- **ArrayTranslatorFactory** (`array_translator.dfy`, module
  `ArrayTranslators`). `Create` declines any type whose erasure is not an
  array. Otherwise it sets the creation context's "in collection" flag,
  resolves the component translator once, and clears the flag again.
  `LoadList` and `SaveList` translate element by element between an array and
  a list node. The component translator is a pair of functions that may fail.
  The registry lookup is a parameter. The source calls it without the creation
  context, so how the nested lookup observes the flag is outside this file; the
  model passes the flag's value at the moment of the call to the lookup as an
  abstraction of that.

`wrappers.dfy` holds `Option`, `Result` and `Traverse`. `Traverse` applies a
fallible step to each element of a sequence in order and stops at the first
failure. It is the shape shared by `generateIfConditions`, `loadList` and
`saveList`, whose Java loops stop at the first exception. `nodes.dfy` holds the
entity-node tree and `Path`.

Behaviour reproduced from the code that a reader might expect to be otherwise:

- `ArrayTranslatorFactory.create` sets the flag to `false` in its `finally`
  block. It does not restore the value the flag had before, so the model clears it.
- `Deferrer.undefer` handles a raw `Entity` through its key, even when that key
  is incomplete. A raw entity that sits in the auto-id list is therefore never
  removed from it by `undefer`.
- `Deferrer.flush` clears its collections after it issues the batch calls, not
  before, and `Flush` keeps that order.
- `List.remove(Object)` removes the first element that is *equal* to the
  argument, not the first that is the same instance. `RemoveFirst` uses value equality.

## Model

| member | source | states |
|---|---|---|
| `Deferral.Deferrer.constructor` | src/main/java/com/googlecode/objectify/impl/Deferrer.java:25-34 | a new deferrer has no pending intents and no auto-id saves, and keeps its key metadata and session |
| `Deferral.Session.AddValue` | src/main/java/com/googlecode/objectify/impl/Deferrer.java:64 | `session.addValue(k, v)` makes `v` the session's value for `k` and leaves every other key as it was |
| `Deferral.Deferrer.Undefer` | src/main/java/com/googlecode/objectify/impl/Deferrer.java:42-55 | a typed key, raw key or raw entity removes exactly that key from the pending map. A pojo needing a generated id loses its first equal occurrence in the auto-id list. Any other pojo removes the key derived for it. Nothing else changes and the session is untouched |
| `Deferral.Deferrer.DeferSave` | src/main/java/com/googlecode/objectify/impl/Deferrer.java:59-79 | an entity with a complete key, or a pojo with a derived key, becomes the pending intent and the session value of that key, and the auto-id list is unchanged. An entity without a key is appended to the auto-id list, and the map and session are unchanged |
| `Deferral.Deferrer.DeferDelete` | src/main/java/com/googlecode/objectify/impl/Deferrer.java:81-84 | the key's pending intent and session value both become "deleted", overriding any earlier intent. All other keys and the auto-id list are unchanged |
| `Deferral.Deferrer.Flush` | src/main/java/com/googlecode/objectify/impl/Deferrer.java:86-119 | visits every pending key once, in some order. The saves are the keyed saves followed by the auto-id saves in order. Each batch is issued only when non-empty, so an empty deferrer issues nothing. Both collections end empty and the session is untouched |
| `Deferral.Deferrer.SaveKey` | src/main/java/com/googlecode/objectify/impl/Deferrer.java:60-78 | a raw entity is filed under its own key exactly when that key is complete, and a pojo under `keyOf` exactly when it does not require an autogenerated id; otherwise the save goes to the auto-id list |
| `Deferral.Partition` | src/main/java/com/googlecode/objectify/impl/Deferrer.java:94-99 | walking the pending keys in a given order, every visited key contributes exactly one entry, to the delete list or to the save list |
| `Deferral.PartitionDeletes` | src/main/java/com/googlecode/objectify/impl/Deferrer.java:94-96 | a key is in the delete batch if and only if it was visited and its pending intent is a delete |
| `Deferral.PartitionSaves` | src/main/java/com/googlecode/objectify/impl/Deferrer.java:94-98 | a value is in the keyed save batch if and only if some visited key has it as its pending save |
| `Deferral.PartitionDeletesDistinct` | src/main/java/com/googlecode/objectify/impl/Deferrer.java:94-96 | when the visited keys are distinct, as map keys are, no key is in the delete batch twice |
| `Deferral.Issue` | src/main/java/com/googlecode/objectify/impl/Deferrer.java:105-112 | a save call is made exactly when the save list is non-empty, and a delete call exactly when the delete list is non-empty, each with its whole list |
| `Deferral.IndexOf` | src/main/java/com/googlecode/objectify/impl/Deferrer.java:50 | the position `List.remove` removes holds the element, and no earlier position holds it |
| `Deferral.RemoveFirst` | src/main/java/com/googlecode/objectify/impl/Deferrer.java:50 | `List.remove(Object)` leaves a list without the object unchanged; otherwise it cuts out the first equal element, keeping the others in order, so exactly one copy goes |
| `Deferral.RemoveFirstElements` | src/main/java/com/googlecode/objectify/impl/Deferrer.java:50 | every element left after `List.remove` was already in the list |
| `Deferral.RemoveFirstAppended` | src/main/java/com/googlecode/objectify/impl/Deferrer.java:49-50 | removing an object just appended to a list that did not hold it gives the list back |
| `Deferral.PartitionSavedOnce` | src/main/java/com/googlecode/objectify/impl/Deferrer.java:94-98 | over distinct visited keys, a value that is the pending save of exactly one of them appears exactly once in the save list |
| `Deferral.FlushedSaveKey` | src/main/java/com/googlecode/objectify/impl/Deferrer.java:94-101 | in a valid state, every save in the flushed save list is either the pending save of a visited key it is filed under, or an auto-id save without a key |
| `Deferral.LastSaveWins` | src/main/java/com/googlecode/objectify/impl/Deferrer.java:59-119 | from any valid state, two saves of different values under one key, then a flush: the later value is in the save batch, the earlier one is not, the later one is issued exactly once, and no other save for that key is issued |
| `Deferral.DeleteOverridesSave` | src/main/java/com/googlecode/objectify/impl/Deferrer.java:59-119 | from any valid state, a save then a delete of the same key, then a flush: the key is in the delete batch and no save filed under that key is issued |
| `Deferral.AutoIdSaved` | src/main/java/com/googlecode/objectify/impl/Deferrer.java:59-119 | an entity with no key, once deferred, is in the save batch of the next flush, although it never entered the keyed map |
| `Deferral.AutoIdUndeferred` | src/main/java/com/googlecode/objectify/impl/Deferrer.java:42-119 | from any valid state whose auto-id list does not hold the pojo, an auto-id pojo that is deferred and then undeferred is not in the next flush's save batch; when nothing else was pending, no call is issued at all |
| `FieldProperties.FieldProperty.GetAllNames` | src/com/googlecode/objectify/impl/FieldProperty.java:82-86 | the load names of a constructed property always include `getName()`, the field's own name |
| `FieldProperties.FieldProperty.HasIgnoreSaveConditions` | src/com/googlecode/objectify/impl/FieldProperty.java:130-132 | a property reporting conditional ignore-save conditions has an ignore-save condition list |
| `FieldProperties.TrimStart` | src/com/googlecode/objectify/impl/FieldProperty.java:52 | the leading part of `String.trim`: a suffix of the input, every dropped character is at most U+0020, and the rest is empty or starts above U+0020 |
| `FieldProperties.TrimEnd` | src/com/googlecode/objectify/impl/FieldProperty.java:52 | the trailing part of `String.trim`: a prefix of the input, every dropped character is at most U+0020, and the rest is empty or ends above U+0020 |
| `FieldProperties.Trim` | src/com/googlecode/objectify/impl/FieldProperty.java:52 | `String.trim` gives a contiguous part of its input, every character before and after it is at most U+0020, and the part is empty or both starts and ends above U+0020 |
| `FieldProperties.TrimEmptyIffBlank` | src/com/googlecode/objectify/impl/FieldProperty.java:52 | `value.trim().length() == 0` holds if and only if every character of the value is at most U+0020 |
| `FieldProperties.NamesOf` | src/com/googlecode/objectify/impl/FieldProperty.java:51-55 | the names added from the `@AlsoLoad` entries are exactly those entries, each once |
| `FieldProperties.CheckAlsoLoadValue` | src/com/googlecode/objectify/impl/FieldProperty.java:52 | an entry passes exactly when it is non-null and does not trim to the empty string |
| `FieldProperties.AddAlsoLoadNames` | src/com/googlecode/objectify/impl/FieldProperty.java:51-55 | the entries are checked in order. The loop succeeds if and only if every entry is non-null and not blank, and then adds exactly the entries to the names. Otherwise the first illegal entry is the error |
| `FieldProperties.NameSet` | src/com/googlecode/objectify/impl/FieldProperty.java:42-57 | the name set is the field name plus every `@AlsoLoad` entry. An `@AlsoLoad` with a null or empty value list fails. Otherwise the first null or blank entry fails, naming that entry |
| `FieldProperties.CreateIf` | src/com/googlecode/objectify/impl/FieldProperty.java:159-173 | the condition is built with the `(Class, Field)` constructor when the class has one, else with the no-arg constructor, and fails when it has neither |
| `FieldProperties.CheckIf` | src/com/googlecode/objectify/impl/FieldProperty.java:140-152 | one class is accepted exactly when it has a usable constructor, its value type accepts the field's class and its entity type accepts the examined class; the condition is the one `createIf` builds. The errors are checked in that order: no constructor, then the field type, then the containing class |
| `FieldProperties.Conditions` | src/com/googlecode/objectify/impl/FieldProperty.java:135-156 | the conditions of a class list succeed exactly when every class is accepted, with one condition per class; otherwise the error is that of the first class that fails |
| `FieldProperties.GenerateIfConditions` | src/com/googlecode/objectify/impl/FieldProperty.java:135-156 | the result is exactly `Conditions`: one condition per class, at the same position, or the error of the first class that cannot be used |
| `FieldProperties.ConditionsAccepted` | src/com/googlecode/objectify/impl/FieldProperty.java:144-152 | every class accepted into a condition list has a usable constructor, a value type assignable from the field's class and an entity type assignable from the declaring class. Its condition sits at the class's position |
| `FieldProperties.NewFieldProperty` | src/com/googlecode/objectify/impl/FieldProperty.java:36-78 | construction succeeds if and only if `@AlsoLoad` is valid, `@Index` and `@Unindex` are not both present, and every present condition list can be built. Errors follow the source's order. On success the names are the field name plus the alternates, at most one of the index and unindex lists is set, each list is the generated conditions, and `hasIgnoreSaveConditions` holds iff `@IgnoreSave` is present and is not exactly `[Always]` |
| `ArrayTranslators.Erase` | src/com/googlecode/objectify/impl/translate/ArrayTranslatorFactory.java:22-24 | erasure removes type arguments, and a type erases to an array type exactly when it is an array type |
| `ArrayTranslators.Create` | src/com/googlecode/objectify/impl/translate/ArrayTranslatorFactory.java:21-62 | a non-array type is declined and the flag is not touched. For an array type, the component translator is resolved once for the erased component type with the flag set, its failure propagates, and the flag is false afterwards in both cases |
| `ArrayTranslators.ArrayTranslator.LoadList` | src/com/googlecode/objectify/impl/translate/ArrayTranslatorFactory.java:34-44 | on success, a new array with exactly as many elements as the node has children, element `i` being the load of child `i`. Otherwise the first failing child's error |
| `ArrayTranslators.ArrayTranslator.SaveList` | src/com/googlecode/objectify/impl/translate/ArrayTranslatorFactory.java:47-56 | on success, a list node at the translator's path with one child per element, in order, each saved with the same index flag. Otherwise the first failing element's error |
| `ArrayTranslators.RoundTrip` | src/com/googlecode/objectify/impl/translate/ArrayTranslatorFactory.java:35-55 | when the component translator loads back every value it saves, loading the saved children gives the original elements, with the same length |
| `ArrayTranslators.SaveThenLoad` | src/com/googlecode/objectify/impl/translate/ArrayTranslatorFactory.java:34-56 | under the same condition, `loadList(saveList(a))` succeeds with an array of `a`'s length and `a`'s elements |

## Left out

- The store calls in `flush` (`ofy.save().entities`, `ofy.delete().keys` and `Result.now()`) are not modelled. `Flush` returns the batches it would issue. Parallelism between the two calls and transport failures are not modelled.
- `Deferral.Deferrer.Flush`: the order of the keyed part of the batches is that of `HashMap` iteration, which is unspecified. The contract fixes only that some order of the distinct pending keys was used. Only the auto-id saves keep their list order, after the keyed saves.
- `Session` is not part of this model beyond `addValue`, which is modelled as a map update. The session's other behaviour (clearing, loading) is not modelled.
- `Deferral.Deferrer.Valid`, `Deferral.Deferrer.Undefer`, `Deferral.LastSaveWins`, `Deferral.DeleteOverridesSave`, `Deferral.AutoIdSaved` and `Deferral.AutoIdUndeferred`: pojos and raw entities are treated as immutable values with a fixed key. Java keeps object references and asks `keyOf` and `requiresAutogeneratedId` about the object as it is at each call. A pojo deferred while it needs a generated id and then given an id would be undeferred through its key in Java and stay in the auto-id list; the model does not capture that, nor aliasing between deferred objects.
- Defers made while `flush` is issuing its batch calls are not modelled. The store calls are not modelled, so they cannot re-enter the deferrer. In Java such a defer, for example from an `@OnSave` callback, lands in the collections that Deferrer.java:114-115 then clears, so it is lost instead of kept for the next flush. The save engine is not part of this model.
- Key derivation for pojos (`keyOf`, `requiresAutogeneratedId`) is a pair of total functions given to the deferrer. The exception `keyOf` throws for an unset id is not modelled.
- Reflection in `FieldProperty` is not modelled: `setAccessible`, `getType`, `getAnnotations`, `get`/`set` and the `RuntimeException` wrapping around them. A field is a record of its name, its classes and its annotations.
- `FieldProperties.CreateIf`: `TypeUtils.newInstance` is assumed to succeed. The source also falls back to the no-arg constructor when instantiating through the two-argument constructor throws an `IllegalStateException`, and that path is not modelled. `TypeUtils` is not part of this model.
- `TypeUtils.getTypeArguments` and `isAssignableFrom` are not modelled. Each condition class carries its two type arguments, and assignability is a parameter.
- A datastore key's parent key and its application and namespace are not modelled. A raw key is its kind and an optional numeric id or string name.
- `FieldProperty.isSaved` (always `false`) and `getIndexInstruction` (returns `null`, marked to-do) carry no behaviour and are not modelled.
- The order of the name array that `HashSet.toArray` produces is not modelled. The names are a set.
- `Array.newInstance`, `GenericTypeReflector.getArrayComponentType` and type variables are not modelled. Arrays are Dafny arrays of one element type, erasure covers classes, parameterized types and arrays, and the component type is taken from the erased array type as in the source.
- `LoadContext` and `SaveContext` are not passed to the component translator, because this factory does not use them beyond passing them on.
- `QueryWrapper` only delegates to its base query, and `TimeZoneTranslatorFactory` only wraps `java.util.TimeZone`, so neither is modelled. The lifecycle tests run against a live factory, and the lifecycle dispatcher they exercise is not part of this model.
