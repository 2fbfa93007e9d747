/** The polymorphic mapper of databind: one binder per class, looked up along the item's
    superclass chain. */
module Databind {
  import opened Common

  /** `wrapBinder`: a binder whose view construction inflates `layout` and whose binding is
      delegated to `binder`. The wrapper is a new binder, never `binder` itself. */
  function WrapBinder(binder: Binder, layout: int): (w: Binder)
    ensures w != binder
    ensures w.Overridden? && w.inner == binder && w.layout == layout
  {
    var w := Overridden(binder, layout);
    assert binder < w;
    w
  }

  /** The `while` loop of `getBinder`: the binder of the first class along `chain` that has one. */
  function LookupAlong(chain: seq<ClassId>, binders: map<ClassId, Binder>): Option<Binder> {
    if chain == [] then None
    else if chain[0] in binders then Some(binders[chain[0]])
    else LookupAlong(chain[1..], binders)
  }

  /** `getBinder(item, position)`: the walk starts at the item's own class. */
  function Lookup(h: Hierarchy, binders: map<ClassId, Binder>, item: Item): Option<Binder>
    requires h.Valid()
  {
    LookupAlong(Ancestry(h, item.cls), binders)
  }

  /** The binder of the most-derived class on the chain that has a mapping is returned. */
  lemma {:induction false} LookupPicksNearestClass(chain: seq<ClassId>, binders: map<ClassId, Binder>, k: int)
    requires 0 <= k < |chain| && chain[k] in binders
    requires forall j :: 0 <= j < k ==> chain[j] !in binders
    ensures LookupAlong(chain, binders) == Some(binders[chain[k]])
  {
    if k > 0 {
      forall j | 0 <= j < k - 1 ensures chain[1..][j] !in binders {
        assert chain[1..][j] == chain[j + 1];
      }
      LookupPicksNearestClass(chain[1..], binders, k - 1);
    }
  }

  /** `getBinder` returns null exactly when no class on the chain is mapped. */
  lemma {:induction false} LookupMissesExactly(chain: seq<ClassId>, binders: map<ClassId, Binder>)
    ensures LookupAlong(chain, binders).None? <==> forall k :: 0 <= k < |chain| ==> chain[k] !in binders
  {
    if chain != [] {
      LookupMissesExactly(chain[1..], binders);
      if chain[0] !in binders && LookupAlong(chain[1..], binders).None? {
        forall k | 0 <= k < |chain| ensures chain[k] !in binders {
          if k > 0 { assert chain[k] == chain[1..][k - 1]; }
        }
      }
    }
  }

  /** Whatever `getBinder` returns is the binder of some class on the chain. */
  lemma {:induction false} LookupIsBoundValue(chain: seq<ClassId>, binders: map<ClassId, Binder>)
    requires LookupAlong(chain, binders).Some?
    ensures exists k :: 0 <= k < |chain| && chain[k] in binders && binders[chain[k]] == LookupAlong(chain, binders).value
  {
    if chain[0] !in binders {
      LookupIsBoundValue(chain[1..], binders);
      var k :| 0 <= k < |chain[1..]| && chain[1..][k] in binders
        && binders[chain[1..][k]] == LookupAlong(chain, binders).value;
      assert chain[1..][k] == chain[k + 1];
    }
  }

  /** The classes `binders` maps to `b`. */
  function ClassesBoundTo(binders: map<ClassId, Binder>, b: Binder): set<ClassId> {
    set c | c in binders && binders[c] == b
  }

  /** The number of classes `binders` maps to `b`. */
  function Occurrences(binders: map<ClassId, Binder>, b: Binder): nat {
    |ClassesBoundTo(binders, b)|
  }

  /** Taking one class out of the map takes exactly its own binder out of the counts. */
  lemma OccurrencesWithout(binders: map<ClassId, Binder>, c: ClassId)
    requires c in binders
    ensures forall b :: (Occurrences(binders, b) ==
      Occurrences(binders - {c}, b) + (if binders[c] == b then 1 else 0))
  {
    forall b ensures Occurrences(binders, b) ==
      Occurrences(binders - {c}, b) + (if binders[c] == b then 1 else 0)
    {
      var rest := ClassesBoundTo(binders - {c}, b);
      assert c !in rest;
      if binders[c] == b {
        assert ClassesBoundTo(binders, b) == rest + {c};
      } else {
        assert ClassesBoundTo(binders, b) == rest;
      }
    }
  }

  /** `mBinders.values()`: one entry per bound class, duplicates kept. */
  ghost function ValuesOf(binders: map<ClassId, Binder>): (vs: multiset<Binder>)
    ensures |vs| == |binders|
    ensures forall b :: vs[b] == Occurrences(binders, b)
    decreases |binders|
  {
    if binders == map[] then
      assert forall b :: ClassesBoundTo(binders, b) == {};
      multiset{}
    else
      var c :| c in binders;
      var rest := binders - {c};
      assert rest.Keys == binders.Keys - {c};
      OccurrencesWithout(binders, c);
      ValuesOf(rest) + multiset{binders[c]}
  }

  class PolymorphicMapper {
    const binders: map<ClassId, Binder>

    /** `mBinders.putAll(binders)` into a fresh, empty map. */
    constructor (binders: map<ClassId, Binder>)
      ensures this.binders == binders
    {
      this.binders := binders;
    }

    /** `getBinder(item, position)`: the binder of the nearest class on the item's chain that
        has one. `position` plays no part. */
    method GetBinder(h: Hierarchy, item: Item, position: int) returns (r: Option<Binder>)
      requires h.Valid()
      ensures r == Lookup(h, binders, item)
      ensures r.Some? ==> r.value in GetAllBinders()
    {
      ghost var chain := Ancestry(h, item.cls);
      ghost var k := 0;
      var itemClass := Some(item.cls);
      while itemClass.Some? && itemClass.value !in binders
        invariant 0 <= k <= |chain|
        invariant itemClass.Some? <==> k < |chain|
        invariant itemClass.Some? ==> itemClass.value == chain[k]
        invariant LookupAlong(chain, binders) == LookupAlong(chain[k..], binders)
        decreases |chain| - k
      {
        assert chain[k..][1..] == chain[k + 1..];
        itemClass := h.SuperclassOf(itemClass.value);
        k := k + 1;
      }
      r := if itemClass.Some? then Some(binders[itemClass.value]) else None;
      if r.Some? {
        assert Occurrences(binders, r.value) > 0 by {
          assert itemClass.value in ClassesBoundTo(binders, r.value);
        }
      }
    }

    /** `getAllBinders()`: the map's values as a read-only collection. */
    ghost function GetAllBinders(): multiset<Binder> {
      ValuesOf(binders)
    }
  }

  class Builder {
    var binders: map<ClassId, Binder>

    constructor ()
      ensures binders == map[]
    {
      binders := map[];
    }

    /** `bind(itemClass, overrideItemLayoutResource, binder)`: stores the layout-overriding
        wrapper, replacing any earlier binding of `itemClass`. */
    method BindLayout(itemClass: ClassId, overrideLayout: int, binder: Binder)
      modifies this
      ensures binders == old(binders)[itemClass := WrapBinder(binder, overrideLayout)]
    {
      binders := binders[itemClass := WrapBinder(binder, overrideLayout)];
    }

    /** `bind(itemClass, binder)`: the last binding of a class wins. */
    method Bind(itemClass: ClassId, binder: Binder)
      modifies this
      ensures binders == old(binders)[itemClass := binder]
    {
      binders := binders[itemClass := binder];
    }

    /** `build()`: the mapper takes a copy of the current bindings. */
    method Build() returns (m: PolymorphicMapper)
      ensures fresh(m) && m.binders == binders
    {
      m := new PolymorphicMapper(binders);
    }
  }

  /** A mapper keeps the bindings it was built with: later builder binds do not reach it. */
  method BuiltMapperIgnoresLaterBinds(builder: Builder, itemClass: ClassId, binder: Binder)
    returns (m: PolymorphicMapper)
    modifies builder
    ensures m.binders == old(builder.binders)
    ensures builder.binders == old(builder.binders)[itemClass := binder]
  {
    m := builder.Build();
    builder.Bind(itemClass, binder);
  }
}
