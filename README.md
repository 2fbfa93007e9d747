# power-adapters binder resolution and RecyclerView bridge, in Dafny

This project models three parts of power-adapters and databind and proves their contracts:

- **The rule-based mapper** (`MapperBuilder`, its private `RuleMapper` and `Rule`). Each `bind`
  appends a (predicate, binder) rule to its class's list. `getBinder` walks the item's
  superclass chain, most-derived class first. At each class it tries that class's rules in
  registration order. The binder of the first rule whose predicate accepts the item is returned.
  The mapper also holds the set of all binders and a tri-state stable-IDs override.
- **The polymorphic mapper** (`PolymorphicMapper` and its `Builder`). It holds one binder per
  class; the last bind of a class wins. The lookup returns the binder of the nearest class on the
  chain that has one.
- **`RecyclerConverterAdapter`**, which presents a `PowerAdapter` to `RecyclerView`:
  - it interns view-type objects as dense ints, using two inverse maps and a counter;
  - it shares one upstream subscription among all host observers;
  - it keeps a shadow item count, checks it against the adapter's live count after each change
    event, and forwards the event to the host.

Modules, one per component:

- `Common` (Common.dfy): `Option`, the class hierarchy and its `Ancestry` chain, items and binders.
- `RuleBinding` (RuleBinding.dfy): `MapperBuilder`, `RuleMapper`, `RuleList`, and resolution as
  functions on values.
- `Databind` (Databind.dfy): `PolymorphicMapper`, its `Builder`, and the lookup function.
- `Recyclerview` (Recyclerview.dfy): `RecyclerConverterAdapter`.

Modelling choices:

- **Classes.** Java reflection is replaced by an explicit `Hierarchy`. It is a superclass map,
  plus a depth per class that rules out cycles. `Ancestry(h, c)` is the chain the Java `while`
  loops visit.
- **Predicates and binders.** A predicate is a total function `Item -> bool`. A binder is an
  opaque value compared by equality. The layout-overriding wrapper is the constructor
  `Overridden(inner, layout)`.
- **Heap objects.** The builders and mappers are classes whose methods update fields. The rule
  lists of `MapperBuilder` are objects (`RuleList`): `build()` shares them with the mapper, and
  the model shows what follows from that.
- **The two `getBinder` loops** are methods with loops. Each is proved equal to a pure search
  function (`Resolve`, `Lookup`), and the lemmas state what that function returns.
- **The adapter.** The adapter's live item count is a parameter of each operation that reads it.
  The view type that `getItemViewType(position)` receives from the adapter is also a parameter.
  The host `notify*` calls are entries appended to the `notifications` log.
  `IllegalStateException` from `validateItemCount` is the `Inconsistent` outcome.

Where the intended design and the code differ, the model follows the code:

- Registries are intended to be immutable once built, and `getAllBinders` is meant to list every
  binder `getBinder` can return. The code of `MapperBuilder.build()` copies only the class map,
  and the rule lists stay shared (see Findings). `BuildSharingLists` models the code as written.
  `Build` is the corrected snapshot.
- The set of all binders is meant to hold each binder once. The code of
  `PolymorphicMapper.getAllBinders` returns the map's values without deduplication. `ValuesOf`
  is a multiset with one entry per bound class.

## Model

| member | source | states |
|---|---|---|
| Common.Ancestry | power-adapters/src/main/java/com/nextfaze/poweradapters/binding/MapperBuilder.java:164-176 | the classes the walk visits: it starts at the item's class, each next class is the superclass of the previous one, and the walk ends at a class with no superclass |
| Common.SuperclassChainIsUnique | databind/src/main/java/com/nextfaze/databind/PolymorphicMapper.java:30-35 | any sequence that follows `getSuperclass` from a class to the top of the hierarchy is exactly `Ancestry`, so both mappers walk the same chain |
| RuleBinding.FirstMatchPicksFirstAccepting | power-adapters/src/main/java/com/nextfaze/poweradapters/binding/MapperBuilder.java:168-174 | if rule i accepts the item and every earlier rule of the class rejects it, rule i's binder is chosen, so later accepting rules are never reached |
| RuleBinding.FirstMatchMissesExactly | power-adapters/src/main/java/com/nextfaze/poweradapters/binding/MapperBuilder.java:168-174 | a class's rules yield no binder if and only if every one of them rejects the item |
| RuleBinding.FirstMatchIsAcceptingRule | power-adapters/src/main/java/com/nextfaze/poweradapters/binding/MapperBuilder.java:168-174 | a binder a class yields is the binder of a rule that accepts the item, and every earlier rule of that class rejected the item |
| RuleBinding.FirstMatchAfterAppend | power-adapters/src/main/java/com/nextfaze/poweradapters/binding/MapperBuilder.java:60-65 | appending a rule leaves the class's answer unchanged for every item an earlier rule accepts; for all other items the new rule decides |
| RuleBinding.AlwaysRuleNeverMisses | power-adapters/src/main/java/com/nextfaze/poweradapters/binding/MapperBuilder.java:27-32 | a rule registered with `ALWAYS` accepts every item, so a class whose list holds one, at any position and with any rules after it, yields a binder for every item |
| RuleBinding.ResolvePicksNearestClass | power-adapters/src/main/java/com/nextfaze/poweradapters/binding/MapperBuilder.java:161-179 | the most-derived class on the chain that has an accepting rule decides the result |
| RuleBinding.ResolveMissesExactly | power-adapters/src/main/java/com/nextfaze/poweradapters/binding/MapperBuilder.java:161-178 | resolution returns null if and only if no class on the chain has a rule accepting the item |
| RuleBinding.ResolveSkipsNonAcceptingClass | power-adapters/src/main/java/com/nextfaze/poweradapters/binding/MapperBuilder.java:166-176 | a class with no rules, or whose rules all reject the item, does not stop the walk: the result is the superclass's result, or null at the top of the hierarchy |
| RuleBinding.ResolvedBinderIsListed | power-adapters/src/main/java/com/nextfaze/poweradapters/binding/MapperBuilder.java:152-172 | every binder resolution returns belongs to the set of binders over all rules of all classes |
| RuleBinding.AllBindersOfAddedClass | power-adapters/src/main/java/com/nextfaze/poweradapters/binding/MapperBuilder.java:152-156 | adding one class's list to what has been collected adds exactly that list's binders |
| RuleBinding.RuleList.constructor | power-adapters/src/main/java/com/nextfaze/poweradapters/binding/MapperBuilder.java:61-63 | a class's rule list starts empty |
| RuleBinding.MapperBuilder.constructor | power-adapters/src/main/java/com/nextfaze/poweradapters/binding/MapperBuilder.java:34-38 | a new builder has no rules and no stable-IDs override |
| RuleBinding.MapperBuilder.BindRule | power-adapters/src/main/java/com/nextfaze/poweradapters/binding/MapperBuilder.java:56-67 | exactly one rule, holding the predicate and `overrideLayout(binder, layout)`, is added at the end of the class's list; the list is created on the first bind of the class; other classes' lists, the earlier rules and the override are unchanged, and no list object is shared between classes |
| RuleBinding.MapperBuilder.BindLayout | power-adapters/src/main/java/com/nextfaze/poweradapters/binding/MapperBuilder.java:80-84 | as `BindRule`, with the `ALWAYS` predicate |
| RuleBinding.MapperBuilder.BindIf | power-adapters/src/main/java/com/nextfaze/poweradapters/binding/MapperBuilder.java:99-103 | as `BindRule`, with layout resource 0 |
| RuleBinding.MapperBuilder.Bind | power-adapters/src/main/java/com/nextfaze/poweradapters/binding/MapperBuilder.java:113-116 | as `BindRule`, with layout resource 0 and the `ALWAYS` predicate |
| RuleBinding.MapperBuilder.StableIds | power-adapters/src/main/java/com/nextfaze/poweradapters/binding/MapperBuilder.java:128-131 | sets the tri-state override and changes no rules, so the last call wins |
| RuleBinding.MapperBuilder.BuildSharingLists | power-adapters/src/main/java/com/nextfaze/poweradapters/binding/MapperBuilder.java:134-136 | as written: the mapper gets a copy of the class map that holds the builder's own list objects, the builder's override, and a binder set consistent with the lists at build time |
| RuleBinding.MapperBuilder.Build | power-adapters/src/main/java/com/nextfaze/poweradapters/binding/MapperBuilder.java:134-136 | corrected: the mapper gets fresh copies of every list, holding the same rules, so no later bind reaches it; its binder set is consistent with its lists |
| RuleBinding.RuleMapper.constructor | power-adapters/src/main/java/com/nextfaze/poweradapters/binding/MapperBuilder.java:149-157 | the loop over all lists collects exactly the set of binders over all rules of all classes, each once |
| RuleBinding.RuleMapper.GetBinder | power-adapters/src/main/java/com/nextfaze/poweradapters/binding/MapperBuilder.java:161-179 | the nested loops return exactly `Resolve` of the current lists, which does not depend on `position`; while the binder set still matches the lists, the result is one of `getAllBinders` |
| RuleBinding.RuleMapper.HasStableIds | power-adapters/src/main/java/com/nextfaze/poweradapters/binding/MapperBuilder.java:188-193 | the override when it is set, otherwise the inherited default |
| RuleBinding.BindThenBuild | power-adapters/src/main/java/com/nextfaze/poweradapters/binding/MapperBuilder.java:99-103 | one bind with a predicate, then `build()` as written: the mapper holds the builder's own list for the class, and its binder set is exactly that rule's binder |
| RuleBinding.BindBuildBind | power-adapters/src/main/java/com/nextfaze/poweradapters/binding/MapperBuilder.java:134-136 | bind, build as written, bind the same class again: the mapper sees both rules, but its binder set holds only the first binder |
| RuleBinding.SharedListOutrunsAllBinders | power-adapters/src/main/java/com/nextfaze/poweradapters/binding/MapperBuilder.java:135 | as-written counterexample: after such a bind, `getBinder` returns a binder that `getAllBinders` does not contain |
| RuleBinding.NewClassAfterBuildIsInvisible | power-adapters/src/main/java/com/nextfaze/poweradapters/binding/MapperBuilder.java:60-64 | with `build()` as written, the first bind of a class the builder had not bound creates a list only the builder holds: the built mapper's rules stay as they were at build time and its binder set stays consistent, while the builder gains the new class |
| RuleBinding.SnapshotIgnoresLaterBinds | power-adapters/src/main/java/com/nextfaze/poweradapters/binding/MapperBuilder.java:135 | with the corrected `Build`, a later bind changes the builder's rules but not the mapper's, and the mapper's binder set stays consistent |
| Databind.WrapBinder | databind/src/main/java/com/nextfaze/databind/PolymorphicMapper.java:47-55 | the layout-override bind stores a wrapper that differs from the given binder and delegates to it |
| Databind.LookupPicksNearestClass | databind/src/main/java/com/nextfaze/databind/PolymorphicMapper.java:29-37 | the binder of the most-derived mapped class on the item's chain is returned |
| Databind.LookupMissesExactly | databind/src/main/java/com/nextfaze/databind/PolymorphicMapper.java:29-37 | the lookup returns null if and only if no class on the chain is mapped |
| Databind.LookupIsBoundValue | databind/src/main/java/com/nextfaze/databind/PolymorphicMapper.java:33-37 | a non-null result is the binder of some class on the chain |
| Databind.OccurrencesWithout | databind/src/main/java/com/nextfaze/databind/PolymorphicMapper.java:42-44 | removing one class removes exactly one occurrence of its binder from the values |
| Databind.ValuesOf | databind/src/main/java/com/nextfaze/databind/PolymorphicMapper.java:42-44 | `getAllBinders` has one entry per bound class: its size is the number of classes, and each binder occurs as many times as there are classes mapped to it |
| Databind.PolymorphicMapper.constructor | databind/src/main/java/com/nextfaze/databind/PolymorphicMapper.java:23-25 | the mapper holds exactly the bindings it was given |
| Databind.PolymorphicMapper.GetBinder | databind/src/main/java/com/nextfaze/databind/PolymorphicMapper.java:29-38 | the loop returns exactly `Lookup`, which does not depend on `position`; a non-null result is among `getAllBinders` |
| Databind.Builder.constructor | databind/src/main/java/com/nextfaze/databind/PolymorphicMapper.java:59-60 | a new builder has no bindings |
| Databind.Builder.BindLayout | databind/src/main/java/com/nextfaze/databind/PolymorphicMapper.java:64-69 | the class now maps to the wrapped binder; every other class is unchanged |
| Databind.Builder.Bind | databind/src/main/java/com/nextfaze/databind/PolymorphicMapper.java:73-76 | the class now maps to the binder, replacing any earlier binding; every other class is unchanged |
| Databind.Builder.Build | databind/src/main/java/com/nextfaze/databind/PolymorphicMapper.java:79-81 | a new mapper holding the builder's current bindings |
| Databind.BuiltMapperIgnoresLaterBinds | databind/src/main/java/com/nextfaze/databind/PolymorphicMapper.java:23-25 | a bind after `build` changes the builder but not the built mapper |
| Recyclerview.RecyclerConverterAdapter.constructor | power-adapters-recyclerview-v7/src/main/java/com/nextfaze/poweradapters/recyclerview/RecyclerConverterAdapter.java:63-77 | no observers, no subscription, no interned view types, shadow count 0, no notifications |
| Recyclerview.RecyclerConverterAdapter.ViewTypeMapsAreInverse | power-adapters-recyclerview-v7/src/main/java/com/nextfaze/poweradapters/recyclerview/RecyclerConverterAdapter.java:64-67 | the object-to-int and int-to-object maps are mutual inverses |
| Recyclerview.RecyclerConverterAdapter.GetItemViewType | power-adapters-recyclerview-v7/src/main/java/com/nextfaze/poweradapters/recyclerview/RecyclerConverterAdapter.java:89-99 | a view type seen before gets its earlier int, and the counter and both maps stay unchanged; a new one gets the counter's value, the counter grows by exactly 1, and both maps gain the pair; either way the int-to-object map gives the view type back |
| Recyclerview.RecyclerConverterAdapter.OnCreateViewHolder | power-adapters-recyclerview-v7/src/main/java/com/nextfaze/poweradapters/recyclerview/RecyclerConverterAdapter.java:101-104 | an int that was handed out gives back the view type it was assigned to; any other int gives null |
| Recyclerview.RecyclerConverterAdapter.RegisterAdapterDataObserver | power-adapters-recyclerview-v7/src/main/java/com/nextfaze/poweradapters/recyclerview/RecyclerConverterAdapter.java:111-118 | the observer joins the set; registering into an empty set snapshots the live count and subscribes upstream; any other registration, including a duplicate, changes neither |
| Recyclerview.RecyclerConverterAdapter.UnregisterAdapterDataObserver | power-adapters-recyclerview-v7/src/main/java/com/nextfaze/poweradapters/recyclerview/RecyclerConverterAdapter.java:120-127 | the observer leaves the set; removing the last one unsubscribes and resets the shadow count to 0; removing an unknown observer, or one of several, changes neither |
| Recyclerview.RecyclerConverterAdapter.GetObserverCount | power-adapters-recyclerview-v7/src/main/java/com/nextfaze/poweradapters/recyclerview/RecyclerConverterAdapter.java:129-131 | the number of registered observers; it is zero exactly when there is no upstream subscription |
| Recyclerview.RecyclerConverterAdapter.ValidateItemCount | power-adapters-recyclerview-v7/src/main/java/com/nextfaze/poweradapters/recyclerview/RecyclerConverterAdapter.java:138-144 | passes exactly when the shadow count equals the live count; otherwise it fails, carrying both counts |
| Recyclerview.RecyclerConverterAdapter.OnChanged | power-adapters-recyclerview-v7/src/main/java/com/nextfaze/poweradapters/recyclerview/RecyclerConverterAdapter.java:26-29 | the shadow count becomes the live count without a check, and a data-set change is forwarded |
| Recyclerview.RecyclerConverterAdapter.OnItemRangeChanged | power-adapters-recyclerview-v7/src/main/java/com/nextfaze/poweradapters/recyclerview/RecyclerConverterAdapter.java:32-35 | the shadow count is unchanged; the range change is forwarded exactly when the counts agree, and nothing is forwarded otherwise |
| Recyclerview.RecyclerConverterAdapter.OnItemRangeInserted | power-adapters-recyclerview-v7/src/main/java/com/nextfaze/poweradapters/recyclerview/RecyclerConverterAdapter.java:38-42 | the shadow count grows by `itemCount`, and keeps that value even when the check fails; the insert is forwarded exactly when old shadow + `itemCount` equals the live count |
| Recyclerview.RecyclerConverterAdapter.OnItemRangeRemoved | power-adapters-recyclerview-v7/src/main/java/com/nextfaze/poweradapters/recyclerview/RecyclerConverterAdapter.java:45-49 | the shadow count shrinks by `itemCount`, and keeps that value even when the check fails; the removal is forwarded exactly when old shadow - `itemCount` equals the live count |
| Recyclerview.RecyclerConverterAdapter.OnItemRangeMoved | power-adapters-recyclerview-v7/src/main/java/com/nextfaze/poweradapters/recyclerview/RecyclerConverterAdapter.java:52-60 | the shadow count is unchanged; when the counts agree, a one-item move is forwarded as a move with the same positions and any other count as a data-set change; when they differ, nothing is forwarded |
| Recyclerview.ChangeBridgeSession | power-adapters-recyclerview-v7/src/main/java/com/nextfaze/poweradapters/recyclerview/RecyclerConverterAdapter.java:24-127 | a sample session: a correct insert is forwarded; a three-item move becomes a data-set change; an insert that overstates the growth fails and forwards nothing; unregistering and re-registering snapshots the count again |

`RecyclerConverterAdapter` and `MapperBuilder` carry an object invariant `Valid()`. Every
method of `RecyclerConverterAdapter` that changes state requires and keeps it. For
`RecyclerConverterAdapter` it says:

- the upstream subscription exists exactly while the observer set is non-empty;
- the shadow count is 0 while the set is empty;
- the counter equals the number of interned view types, and no view type is interned twice;
- int i maps to the i-th interned view type, and back.

For `MapperBuilder`, `Valid()` says that no list object is filed under two classes. The `bind`
methods keep it and `Build` requires it. `StableIds` cannot break it, since it leaves the class
map unchanged, and `BuildSharingLists` changes nothing in the builder. `RuleMapper`,
`PolymorphicMapper` and `Builder` have no invariant beyond their fields' types.

## Findings

| source | as written | input that shows it | evidently intended | confidence | as-written member | corrected member |
|---|---|---|---|---|---|---|
| power-adapters/src/main/java/com/nextfaze/poweradapters/binding/MapperBuilder.java:135 | `build()` copies the class map but not the `ArrayList`s in it, and `RuleMapper` computes `mAllBinders` once, at construction | `bind(A, b1, p)` with `p` rejecting every item; `build()`; `bind(A, b2)`; then `getBinder` on an item of class A returns `overrideLayout(b2, 0)`, which is not in `getAllBinders()` | `build()` is a snapshot: later binds do not change the built mapper, and `getAllBinders()` lists every binder `getBinder` can return | medium; not executed | RuleBinding.SharedListOutrunsAllBinders | RuleBinding.MapperBuilder.Build |

`BuildSharingLists` models `build()` as written, and `BindBuildBind` builds the state of the
counterexample. The corrected `Build` copies each rule list. `SnapshotIgnoresLaterBinds` proves
that a later bind then leaves the built mapper's rules unchanged. The mapper's binder set also
stays consistent. With a consistent binder set, `RuleMapper.GetBinder` proves its result is among
`getAllBinders`.

## Left out

- Android host behaviour is not modelled. This covers the `super.registerAdapterDataObserver` and `super.unregisterAdapterDataObserver` calls, what the `notify*` methods do inside `RecyclerView` (they are only log entries here), `RecyclerView.ViewHolder` with `getLayoutPosition`, and `setHasStableIds` in the adapter's constructor.
- Delegations to the `PowerAdapter` are parameters or left out. `getItemCount` is the `liveItemCount` parameter. `getItemViewType(position)` supplies the view-type parameter. `getItemId`, `newView`, `bindView` and `onBindViewHolder` forward foreign calls and are left out. `OnCreateViewHolder` models only the int-to-view-type lookup that feeds `newView`.
- Successive live counts are independent parameters. The model does not tie them to one adapter's changing state.
- The `Recyclerview.RecyclerConverterAdapter` event callbacks require an upstream subscription. The adapter only delivers events to a registered observer.
- Recyclerview.RecyclerConverterAdapter.GetItemViewType: uses unbounded integers, so it does not model 32-bit wrap-around of `mNextViewTypeInt`. Wrapping would need more than 2^31 distinct view types.
- Recyclerview.RecyclerConverterAdapter.OnItemRangeInserted: uses unbounded integers, so it does not model 32-bit overflow of `mShadowItemCount`. The same holds for `OnItemRangeRemoved`.
- Throwing is modelled as a returned `Inconsistent` outcome. Unwinding up to the adapter's caller is not modelled.
- `BinderWrapper.overrideLayout` is not part of this model, so its behaviour is not known here. The model takes its result to be the opaque wrapper `Overridden(binder, layout)` for every layout, 0 included. Two gaps follow, depending on what the Java method does. If it makes a new wrapper object on each call, binding the same binder twice leaves two entries in Java's `mAllBinders`, while the model's `AllBinders` holds one `Overridden` value. If it returns `binder` itself for layout 0, which the parameter's documentation suggests, then `getBinder` returns `binder` where the model returns `Overridden(binder, 0)`.
- In `PolymorphicMapper.wrapBinder`, the inflation `layoutInflater(...).inflate` is view construction and is left out. The wrapper is the same opaque `Overridden` constructor.
- `AbstractMapper.hasStableIds()` is not part of this model. `RuleMapper.HasStableIds` takes its result as the parameter `inherited`.
- Java reflection (`getClass`, `getSuperclass`) is an explicit finite, acyclic `Hierarchy`. Interfaces are not walked, as in the source.
- Generic type parameters and `@NonNull` checks are not modelled. Items, classes and binders are never null here, so `mBinders.get(null)` at the end of the polymorphic loop is the miss it is in the source.
- `RuleMapper.getAllBinders` returns the mapper's live `HashSet`. In the model it is the immutable field `allBinders`. `PolymorphicMapper.getAllBinders` is the ghost multiset `ValuesOf(binders)` and not an unmodifiable view object.
- Item.java inflates a layout or returns a prebuilt view; it is view construction and is left out. PartialDataAdapter.java, NewsErrorFormatter.java and NewsSection.java are sample code and are left out.
- The source runs on the single UI thread. Concurrency is not modelled.
