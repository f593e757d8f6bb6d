# smallgears api-kit: groups and property bags, in Dafny

This project models the core of the `smallgears.api` library:

- `Group<E,SELF>` is a mutable map from derived string keys to elements. A naming function that is fixed at construction gives each element its key.
- `Property` is a named cell with a dynamically typed value. It has type-checked accessors `is`, `as` and `asOr`.
- `Properties` is the group of properties keyed by property name.

The Dafny modules follow the source files.

- `Group` (`group.dfy`) holds the class `Group<E>`. Its `elements` map is a field, and its naming function is a `const`. The two overridable hooks, `add(E)` and `remove(String)`, are two predicates fixed at construction:
  - `admits` decides whether an element is stored;
  - `protects` decides whether a key is kept.

  The base class admits everything and protects nothing (`AdmitAll`, `ProtectNone`). Bulk mutators are loops that call the single-item hook methods, as the source's `forEach` loops do. Each one is proved against a map-level specification:
  - `PutAll` replays additions in order, so a later colliding key wins;
  - `Keep` applies removals, which commute.

  Lemmas about `Put` and `PutAll` state the promised properties of adding:
  - the naming invariant;
  - overwrite without growth;
  - last writer wins;
  - order independence when names are distinct;
  - chained adds.

  Each removal method's postcondition equates its result with `Keep`.
- `Property` (`property.dfy`) holds the datatype `Property(name, value)`. A `Value` is `Null` or a boxed `String`, `Integer`, `Long` or `Boolean`. A small class hierarchy stands in for `Class<?>`: `java.lang.Object` is above everything, `CharSequence` is above `String`, and `Number` is above `Integer` and `Long`. `is` is `Class.isInstance`: an absent value is an instance of nothing.
- `Properties` (`properties.dfy`) holds the class `Properties`. It wraps a `Group<Property>` named by `Property::name`, standing in for the source's subclassing. It adds:
  - the static factories `props` and `prop`;
  - the name-wrapping `add` and `remove`;
  - `getOr(String, String)`.
- `Scenarios` (`scenarios.dfy`) replays `GroupTest` and `PropertyTest` as verified client code. The tests' assertions are postconditions.
- `Wrappers` (`wrappers.dfy`) holds `Option` (for `java.util.Optional`) and `Result` (for accessors that throw).

Three behaviours of the code are easy to misread:
- `has(E...)` delegates to `has(Collection<E>)`, so both test value membership (`containsValue`). Only the name forms and `has(SELF)` test keys.
- The bag has no `propOr` method. `PropertyTest` calls `ps.prop("bad")` and `ps.propOr(...)`, but `Properties.java` defines neither. The closest method is `getOr(String, String)`, and the scenario uses it.
- A property's name is only required to be non-null. An empty name is accepted.

## Model

| member | source | states |
|---|---|---|
| `Group.Group.constructor` | src/main/java/smallgears/api/group/Group.java:32-39 | a new group is empty, keeps the given naming function and has the base class's hooks (store everything, delete everything) |
| `Group.Group.WithHooks` | src/test/java/org/acme/GroupTest.java:71-91 | a subclass group starts empty with its naming function and its overridden add/remove hooks |
| `Group.Group.Add` | src/main/java/smallgears/api/group/Group.java:73-77 | `add(E)` stores `name(e) ↦ e`, overwriting the old entry, unless the hook refuses the element; the naming invariant is kept |
| `Group.Group.AddAll` | src/main/java/smallgears/api/group/Group.java:49-70 | `add(E...)` and `add(Iterable)` have the effect of one `add(E)` per element, in order (`PutAll`) |
| `Group.Group.AddGroup` | src/main/java/smallgears/api/group/Group.java:57-60 | `add(SELF other)` overlays the admitted entries of `other` on this group, whatever the iteration order of the detached copy; works when `other` is this group |
| `Group.Group.Remove` | src/main/java/smallgears/api/group/Group.java:119-123 | `remove(String)` deletes exactly that key unless it is protected; an absent key is a no-op and other entries are unchanged |
| `Group.Group.RemoveNames` | src/main/java/smallgears/api/group/Group.java:109-114 | `remove(String...)` deletes each listed key that is present and not protected; nothing else changes |
| `Group.Group.RemoveElements` | src/main/java/smallgears/api/group/Group.java:82-104 | `remove(E...)` and `remove(Iterable)` delete by derived name, not by value; protected keys survive |
| `Group.Group.RemoveGroup` | src/main/java/smallgears/api/group/Group.java:91-94 | `remove(SELF other)` deletes the derived names of `other`'s elements; when `other` shares the naming function, these are exactly `other`'s keys |
| `Group.Group.HasNames` | src/main/java/smallgears/api/group/Group.java:154-158 | `has(String...)` and `has(Iterable<String>)` are true iff every name is a key, so they are vacuously true for no names |
| `Group.Group.HasElements` | src/main/java/smallgears/api/group/Group.java:163-167 | `has(E...)` and `has(Collection<E>)` are true iff every element equals some stored element (`containsValue`) |
| `Group.Group.HasGroup` | src/main/java/smallgears/api/group/Group.java:146-149 | `has(SELF other)` is true iff `other.names()` ⊆ `names()` |
| `Group.Group.Get` | src/main/java/smallgears/api/group/Group.java:172-175 | `get(n)` is present iff `n` is a key; the element it returns is the stored one, and its name is `n` |
| `Group.Group.GetOr` | src/main/java/smallgears/api/group/Group.java:180-185 | `getOr(n, f)` is the stored element when `n` is a key, and otherwise `f`; the result is named `n` or is `f` |
| `Group.Group.Size` | src/main/java/smallgears/api/group/Group.java:190-192 | `size()` is the number of names |
| `Group.Group.Empty` | src/main/java/smallgears/api/group/Group.java:197-199 | `empty()` holds iff `size() == 0`, iff the map is empty |
| `Group.Group.Elements` | src/main/java/smallgears/api/group/Group.java:204-206 | `elements()` is a set of exactly the stored elements; under the invariant, their names are exactly the keys |
| `Group.Group.Names` | src/main/java/smallgears/api/group/Group.java:211-213 | `names()` holds exactly the names for which `get` is present |
| `Group.Group.Equals` | src/main/java/smallgears/api/group/Group.java:33-36 | two groups are equal iff they have the same names and every lookup agrees |
| `Group.PutSize` | src/main/java/smallgears/api/group/Group.java:73-77 | adding under a present key keeps the size; a new admitted key adds one |
| `Group.PutAllNamed` | src/main/java/smallgears/api/group/Group.java:36-39 | every stored pair `(k, e)` has `name(e) == k`, because bulk add only goes through `add(E)` |
| `Group.PutAllKeys` | src/main/java/smallgears/api/group/Group.java:65-77 | after a bulk add, a key is present iff it was present before or an admitted element carries it |
| `Group.PutAllUntouched` | src/main/java/smallgears/api/group/Group.java:65-77 | a key that no admitted element carries keeps its old entry, or stays absent |
| `Group.PutAllLastWins` | src/main/java/smallgears/api/group/Group.java:65-77 | a later colliding key wins: the entry is the last admitted element with that name |
| `Group.PutAllAppend` | src/main/java/smallgears/api/group/Group.java:49-70 | `add(a).add(b)` equals `add(a + b)` |
| `Group.PutAllDistinct` | src/main/java/smallgears/api/group/Group.java:65-70 | with distinct names, a bulk add overlays exactly the admitted elements, each under its name |
| `Group.PutAllOrderIndependent` | src/main/java/smallgears/api/group/Group.java:65-70 | with distinct names, bulk adds of the same elements in any order give equal maps |
| `Group.NamedValuesCount` | src/main/java/smallgears/api/group/Group.java:190-206 | under the naming invariant, there are as many distinct elements as keys |
| `Group.NamesOfValues` | src/main/java/smallgears/api/group/Group.java:204-213 | under the naming invariant, the names of the stored elements are exactly the keys |
| `Group.SizeCountsElements` | src/main/java/smallgears/api/group/Group.java:190-206 | `size()` equals the size of `elements()` |
| `Group.HasElementsHasNames` | src/main/java/smallgears/api/group/Group.java:137-167 | value membership implies key membership of the derived names (the converse fails; `Scenarios.SameNameOtherValue` shows a case) |
| `Property.SubclassOf` | src/main/java/smallgears/api/properties/Property.java:51-53 | the subtype relation `Class.isInstance` decides: it is reflexive, everything is below `java.lang.Object`, and a supertype is never deeper than its subtype |
| `Property.RuntimeClass` | src/main/java/smallgears/api/properties/Property.java:33 | `value.getClass()` of a present value is a final class, so no other class lies below it |
| `Property.Property.Is` | src/main/java/smallgears/api/properties/Property.java:51-53 | `is(T)` is false for an absent value, true for `Object` on every present value, and never names a class deeper than the value's runtime class |
| `Property.Prop` | src/main/java/smallgears/api/properties/Property.java:14-19 | `prop(name)` has that name and an absent value, which is an instance of no class |
| `Property.PropOf` | src/main/java/smallgears/api/properties/Property.java:15-21 | `prop(name, value)` stores the given name and value; it is an `Object` iff the value is present |
| `Property.Property.WithValue` | src/main/java/smallgears/api/properties/Property.java:12-21 | the setter `value(v)` replaces the value and leaves the name unchanged |
| `Property.Property.As` | src/main/java/smallgears/api/properties/Property.java:28-35 | `as(T)` returns the value iff `is(T)`; otherwise it fails with `IllegalStateException(value, runtime class, T)`, or with a `NullPointerException` for an absent value |
| `Property.Property.AsOr` | src/main/java/smallgears/api/properties/Property.java:42-46 | `asOr(f)` returns the value or `f`, and the result always has `f`'s runtime class; a null `f` fails |
| `Property.AsOrChoice` | src/main/java/smallgears/api/properties/Property.java:42-46 | `asOr(f)` returns the value exactly when it is present and has `f`'s runtime class, and otherwise returns `f` unchanged |
| `Property.AsObject` | src/main/java/smallgears/api/properties/Property.java:28-35 | `as(Object.class)` returns every present value, and fails only on an absent one |
| `Property.IsObjectIffPresent` | src/main/java/smallgears/api/properties/Property.java:51-53 | `is(Object.class)` holds iff the value is present |
| `Property.IsUpwardClosed` | src/main/java/smallgears/api/properties/Property.java:51-53 | an instance of a class is an instance of each of its supertypes |
| `Property.ObjectIsTop` | src/main/java/smallgears/api/properties/Property.java:51-53 | `java.lang.Object` is a supertype of every class |
| `Property.SubclassTransitive` | src/main/java/smallgears/api/properties/Property.java:51-53 | subtyping, as `isInstance` uses it, is transitive |
| `Property.RuntimeClassIsFinal` | src/main/java/smallgears/api/properties/Property.java:42-46 | no class other than itself lies below the runtime class of a value, so `is(f.getClass())` means "same class" |
| `Property.StructuralEquality` | src/main/java/smallgears/api/properties/Property.java:12 | equality is structural over `(name, value)` |
| `Properties.Coll` | src/main/java/smallgears/api/properties/Properties.java:80-84 | `coll` wraps each name, in order, into a property with that name and an absent value |
| `Properties.PutAllColl` | src/main/java/smallgears/api/properties/Properties.java:45-57 | adding wrapped names stores a valueless property under each name, overwriting what was there, and changes nothing else |
| `Properties.NamesInColl` | src/main/java/smallgears/api/properties/Properties.java:62-65 | the derived names of wrapped names are exactly the listed names |
| `Properties.PropsOrderIndependent` | src/main/java/smallgears/api/properties/Properties.java:23-25 | bags built from the same properties with distinct names, in any order, are equal |
| `Properties.KeysAreNames` | src/main/java/smallgears/api/properties/Properties.java:37-39 | every key of a bag is the name of the property stored under it |
| `Properties.Properties.constructor` | src/main/java/smallgears/api/properties/Properties.java:37-39 | a new bag is empty, is named by `Property::name` and has the base hooks |
| `Properties.Properties.Props` | src/main/java/smallgears/api/properties/Properties.java:23-25 | `props(p1..pn)` is an empty bag followed by `add(p1..pn)` |
| `Properties.Properties.Prop` | src/main/java/smallgears/api/properties/Properties.java:31-33 | the static `prop(name, value)` is a pure factory for that name and value, and touches no bag |
| `Properties.Properties.AddNames` | src/main/java/smallgears/api/properties/Properties.java:45-57 | `add(String...)` and `add(Collection<String>)` store a valueless property under each name, overwriting, and leave other names unchanged |
| `Properties.Properties.RemoveNames` | src/main/java/smallgears/api/properties/Properties.java:62-65 | `remove(Collection<String>)` removes exactly the listed names that are present; absent names are no-ops |
| `Properties.Properties.GetOr` | src/main/java/smallgears/api/properties/Properties.java:70-75 | `getOr(n, s)` is the stored property if `n` is present, and otherwise a fresh `prop(n, s)`; the result is named `n`, and the function cannot mutate the bag |
| `Scenarios.Cruds` | src/test/java/org/acme/GroupTest.java:17-41 | the `cruds` test: empty, add two, size 2, has by value and by name, get, getOr, remove by element and by name, empty again |
| `Scenarios.CrudsQueries` | src/test/java/org/acme/GroupTest.java:26-35 | the `cruds` queries on the group holding "1" and "2", including `has(e1, e2, e3)` being false |
| `Scenarios.Hooks` | src/test/java/org/acme/GroupTest.java:43-54 | a refused element is silently not stored, and a protected key survives `remove` |
| `Scenarios.PropertyScenario` | src/test/java/org/acme/PropertyTest.java:17-30 | the `property` test: structural equality, `is(String)`, `as(Object)`, getters, setter; also `as(Integer)` fails and names `String` |
| `Scenarios.PropsOfTwo` | src/test/java/org/acme/PropertyTest.java:38 | `props(p1, p2)` holds exactly `p1` and `p2` under their names |
| `Scenarios.PropsTwice` | src/test/java/org/acme/PropertyTest.java:38-40 | `props(p1, p2)` built twice gives equal bags |
| `Scenarios.PropertiesQueries` | src/test/java/org/acme/PropertyTest.java:42-56 | has by value, by name and by bag; `has(p3)` is false; `getOr("bad", "default")` equals `prop("bad", "default")` |
| `Scenarios.SameNameOtherValue` | src/main/java/smallgears/api/group/Group.java:154-167 | in the bag holding p1 and p2, `has("n1")` is true, but `has` of a property named "n1" with another value is false |
| `Scenarios.PropsOfFour` | src/test/java/org/acme/PropertyTest.java:62 | `props(p1, p2, p3, p4)` holds the four properties |
| `Scenarios.AddThirdAndFourth` | src/test/java/org/acme/PropertyTest.java:58-62 | `ps.add(p3, p4)` gives a bag equal to `props(p1, p2, p3, p4)` |
| `Scenarios.RemoveFirstAndThird` | src/test/java/org/acme/PropertyTest.java:64-66 | `ps.remove(p1, p3)` gives a bag equal to `props(p4, p2)` |
| `Scenarios.RemoveSecondAndFourth` | src/test/java/org/acme/PropertyTest.java:68-70 | `ps.remove(props(p2, p4))` empties the bag |
| `Scenarios.PropertiesScenario` | src/test/java/org/acme/PropertyTest.java:33-73 | the `properties` test end to end, with `propOr` read as `getOr` |

## Left out

- Concurrency: the backing map is a `synchronizedMap`, which makes each single operation atomic. The model runs operations one at a time, so it says nothing about concurrent readers seeing part of a batch.
- `iterator()` is a live view over the map, and `toString()` depends on `HashMap` iteration order. Neither is modelled.
- `hashCode`, and the identity comparison of the naming function inside the generated `equals`, are not modelled. Equality is equality of the maps.
- Fluent return values: every public mutator returns the receiver (`self()`). The model's methods return nothing, and callers keep the reference.
- Null arguments: `@NonNull` parameters fail fast with a `NullPointerException`. In the model, the types exclude null. A naming function that returns null is not modelled, and neither is a null fallback passed to `Group.getOr`.
- Hooks: a subclass may override `add(E)` and `remove(String)` with any code. The model covers overrides that refuse to store an element or refuse to delete a key, decided by the element or key alone.
- Group.SizeCountsElements: element equality is Dafny `==`, so the model assumes equal elements have equal names. In Java, an `equals` that ignores what the naming function reads can make `elements()` (a `HashSet`) smaller than `size()`.
- Group.NamedValuesCount: rests on the same assumption that equal elements have equal names.
- Group.HasElementsHasNames: rests on the same assumption. In Java, `has(e)` (`containsValue`) can be true while `name(e)` is not a key.
- Group.Group.Elements: its third ensures, that the names of the elements are exactly the keys, rests on the same assumption.
- Group.Group.AddGroup: requires `other` to be valid and to share the naming function, as two groups of one `SELF` class do. If the naming functions differ, the result would depend on the iteration order of a `HashSet`.
- Property.Property.WithValue: the setter is a value update that returns the changed property. In the source, a `Property` is a mutable object. If a property already stored in a bag is changed in place, the bag changes too; the model's bags hold values, so it does not capture that aliasing.
- Property values: only `null`, `String`, `Integer`, `Long` and `Boolean` values are modelled, against the classes `Object`, `CharSequence`, `String`, `Number`, `Integer`, `Long` and `Boolean`. Other runtime types and interfaces are not modelled.
- Property.Property.As: the `IllegalStateException` carries the value, its runtime class and the requested class as fields. The exact message text is not modelled.
- `size()` is a Java `int`. The model's size is unbounded, so it does not capture the cap at `Integer.MAX_VALUE`.
- `PropertyTest` calls `ps.prop("bad")` and `ps.propOr(...)`, which `Properties.java` does not define. The first is not modelled, and the second is read as `getOr(String, String)`.
- Configuration location and loading (`ConfigurationProvider`, `ConfigurationLocator`, `ConfigurationBinder`) is file-system and stream I/O. It is not part of this model.
- The stream and exception helpers in `Apikit` are not part of this model. `allMatch` over `streamof(...)` is modelled as a universally quantified test.
