/** The rule-based mapper of power-adapters: `MapperBuilder`, the `RuleMapper` it builds and
    the `Rule`s they hold. */
module RuleBinding {
  import opened Common

  /** A binder guarded by a predicate evaluated per item instance. */
  datatype Rule = Rule(accepts: Item -> bool, binder: Binder)

  /** `ALWAYS`: the predicate the `bind` overloads without a predicate register. */
  const Always: Item -> bool := _ => true

  /** `BinderWrapper.overrideLayout(binder, layout)`, which the builder applies to every binder
      it stores; its own code is not part of this model, so its result is an opaque wrapper. */
  function OverrideLayout(binder: Binder, layout: int): Binder {
    Overridden(binder, layout)
  }

  // ----- Resolution over values ---------------------------------------------------------

  /** Rules by declared class, as the mapper sees them. */
  type Table = map<ClassId, seq<Rule>>

  function RulesFor(table: Table, c: ClassId): seq<Rule> {
    if c in table then table[c] else []
  }

  ghost predicate NoRuleAccepts(rules: seq<Rule>, item: Item) {
    forall i :: 0 <= i < |rules| ==> !rules[i].accepts(item)
  }

  /** The inner loop of `getBinder`: the binder of the first rule that accepts `item`. */
  function FirstMatch(rules: seq<Rule>, item: Item): Option<Binder> {
    if rules == [] then None
    else if rules[0].accepts(item) then Some(rules[0].binder)
    else FirstMatch(rules[1..], item)
  }

  /** The outer loop of `getBinder`: the first class along `chain` with an accepting rule decides. */
  function ResolveAlong(chain: seq<ClassId>, table: Table, item: Item): Option<Binder> {
    if chain == [] then None
    else match FirstMatch(RulesFor(table, chain[0]), item)
      case Some(b) => Some(b)
      case None => ResolveAlong(chain[1..], table, item)
  }

  /** Resolution for an item whose walk starts at class `c`. */
  function ResolveFrom(h: Hierarchy, table: Table, c: ClassId, item: Item): Option<Binder>
    requires h.Valid()
  {
    ResolveAlong(Ancestry(h, c), table, item)
  }

  /** `getBinder(item, position)`: the walk starts at the item's own class. */
  function Resolve(h: Hierarchy, table: Table, item: Item): Option<Binder>
    requires h.Valid()
  {
    ResolveFrom(h, table, item.cls, item)
  }

  /** Every binder held by any rule of any class, each once (`mAllBinders`). */
  function AllBinders(table: Table): set<Binder> {
    set c, i | c in table && 0 <= i < |table[c]| :: table[c][i].binder
  }

  /** The first accepting rule is the one chosen; later accepting rules are never reached. */
  lemma {:induction false} FirstMatchPicksFirstAccepting(rules: seq<Rule>, item: Item, i: int)
    requires 0 <= i < |rules| && rules[i].accepts(item)
    requires NoRuleAccepts(rules[..i], item)
    ensures FirstMatch(rules, item) == Some(rules[i].binder)
  {
    if i > 0 {
      assert rules[..i][0] == rules[0];
      assert rules[1..][..i - 1] == rules[..i][1..];
      FirstMatchPicksFirstAccepting(rules[1..], item, i - 1);
    }
  }

  /** A class's rules yield nothing exactly when none of them accepts the item. */
  lemma {:induction false} FirstMatchMissesExactly(rules: seq<Rule>, item: Item)
    ensures FirstMatch(rules, item).None? <==> NoRuleAccepts(rules, item)
  {
    if rules != [] {
      FirstMatchMissesExactly(rules[1..], item);
      if NoRuleAccepts(rules[1..], item) && !rules[0].accepts(item) {
        forall i | 0 <= i < |rules| ensures !rules[i].accepts(item) {
          if i > 0 { assert rules[i] == rules[1..][i - 1]; }
        }
      }
    }
  }

  /** A rule's binder is only ever returned by a rule that accepts the item and that every
      earlier rule of the class rejected. */
  lemma {:induction false} FirstMatchIsAcceptingRule(rules: seq<Rule>, item: Item)
    requires FirstMatch(rules, item).Some?
    ensures exists i :: (0 <= i < |rules| && rules[i].accepts(item)
      && rules[i].binder == FirstMatch(rules, item).value && NoRuleAccepts(rules[..i], item))
  {
    if rules[0].accepts(item) {
      assert rules[..0] == [];
    } else {
      FirstMatchIsAcceptingRule(rules[1..], item);
      var i :| 0 <= i < |rules[1..]| && rules[1..][i].accepts(item)
        && rules[1..][i].binder == FirstMatch(rules, item).value && NoRuleAccepts(rules[1..][..i], item);
      assert rules[1..][i] == rules[i + 1];
      assert rules[..i + 1] == [rules[0]] + rules[1..][..i];
    }
  }

  /** Appending a rule (what `bind` does) changes a class's answer only for items that every
      earlier rule rejected. */
  lemma {:induction false} FirstMatchAfterAppend(rules: seq<Rule>, r: Rule, item: Item)
    ensures FirstMatch(rules + [r], item) ==
      if FirstMatch(rules, item).Some? then FirstMatch(rules, item)
      else if r.accepts(item) then Some(r.binder)
      else None
  {
    if rules == [] {
      assert rules + [r] == [r];
      assert [r][1..] == [];
    } else {
      assert (rules + [r])[1..] == rules[1..] + [r];
      FirstMatchAfterAppend(rules[1..], r, item);
    }
  }

  /** A class whose list holds a rule registered with `ALWAYS`, wherever it stands, yields a
      binder for every item. */
  lemma AlwaysRuleNeverMisses(rules: seq<Rule>, i: int, item: Item)
    requires 0 <= i < |rules| && rules[i].accepts == Always
    ensures FirstMatch(rules, item).Some?
  {
    FirstMatchMissesExactly(rules, item);
  }

  /** The class nearest the start of the chain with an accepting rule decides the result. */
  lemma {:induction false} ResolvePicksNearestClass(chain: seq<ClassId>, table: Table, item: Item, k: int)
    requires 0 <= k < |chain| && FirstMatch(RulesFor(table, chain[k]), item).Some?
    requires forall j :: 0 <= j < k ==> FirstMatch(RulesFor(table, chain[j]), item).None?
    ensures ResolveAlong(chain, table, item) == FirstMatch(RulesFor(table, chain[k]), item)
  {
    if k > 0 {
      assert FirstMatch(RulesFor(table, chain[0]), item).None?;
      forall j | 0 <= j < k - 1 ensures FirstMatch(RulesFor(table, chain[1..][j]), item).None? {
        assert chain[1..][j] == chain[j + 1];
      }
      ResolvePicksNearestClass(chain[1..], table, item, k - 1);
    }
  }

  /** `getBinder` returns null exactly when no class on the chain has a rule accepting the item. */
  lemma {:induction false} ResolveMissesExactly(chain: seq<ClassId>, table: Table, item: Item)
    ensures ResolveAlong(chain, table, item).None? <==>
      forall k :: 0 <= k < |chain| ==> NoRuleAccepts(RulesFor(table, chain[k]), item)
  {
    if chain != [] {
      FirstMatchMissesExactly(RulesFor(table, chain[0]), item);
      ResolveMissesExactly(chain[1..], table, item);
      if ResolveAlong(chain, table, item).None? {
        forall k | 0 <= k < |chain| ensures NoRuleAccepts(RulesFor(table, chain[k]), item) {
          if k > 0 { assert chain[k] == chain[1..][k - 1]; }
        }
      } else if forall k :: 0 <= k < |chain| ==> NoRuleAccepts(RulesFor(table, chain[k]), item) {
        forall k | 0 <= k < |chain| - 1 ensures NoRuleAccepts(RulesFor(table, chain[1..][k]), item) {
          assert chain[1..][k] == chain[k + 1];
        }
        assert false;
      }
    }
  }

  /** A class whose rules all reject the item, or that has none, does not stop the walk: the
      answer is the one its superclass gives, or null at the top of the hierarchy. */
  lemma ResolveSkipsNonAcceptingClass(h: Hierarchy, table: Table, c: ClassId, item: Item)
    requires h.Valid()
    requires NoRuleAccepts(RulesFor(table, c), item)
    ensures ResolveFrom(h, table, c, item) ==
      if c in h.superclass then ResolveFrom(h, table, h.superclass[c], item) else None
  {
    FirstMatchMissesExactly(RulesFor(table, c), item);
    var chain := Ancestry(h, c);
    if c in h.superclass {
      assert chain[1..] == Ancestry(h, h.superclass[c]);
    } else {
      assert chain == [c] && chain[1..] == [];
      assert ResolveAlong(chain[1..], table, item) == None;
    }
  }

  /** Every binder `getBinder` can return is one of the table's binders. */
  lemma {:induction false} ResolvedBinderIsListed(chain: seq<ClassId>, table: Table, item: Item)
    requires ResolveAlong(chain, table, item).Some?
    ensures ResolveAlong(chain, table, item).value in AllBinders(table)
  {
    var rules := RulesFor(table, chain[0]);
    if FirstMatch(rules, item).Some? {
      FirstMatchIsAcceptingRule(rules, item);
      var i :| 0 <= i < |rules| && rules[i].accepts(item)
        && rules[i].binder == FirstMatch(rules, item).value && NoRuleAccepts(rules[..i], item);
      assert chain[0] in table;
      assert table[chain[0]][i].binder in AllBinders(table);
    } else {
      ResolvedBinderIsListed(chain[1..], table, item);
    }
  }

  /** `AllBinders` grows by exactly the binders of a class added to the table. */
  lemma AllBindersOfAddedClass(table: Table, c: ClassId, rules: seq<Rule>)
    requires c !in table
    ensures AllBinders(table[c := rules]) == AllBinders(table) + set i | 0 <= i < |rules| :: rules[i].binder
  {
    var t := table[c := rules];
    forall b | b in AllBinders(t)
      ensures b in AllBinders(table) + set i | 0 <= i < |rules| :: rules[i].binder
    {
      var d, i :| d in t && 0 <= i < |t[d]| && t[d][i].binder == b;
      if d != c { assert table[d][i].binder == b; }
    }
    forall b | b in AllBinders(table) ensures b in AllBinders(t) {
      var d, i :| d in table && 0 <= i < |table[d]| && table[d][i].binder == b;
      assert t[d][i].binder == b;
    }
    forall i | 0 <= i < |rules| ensures rules[i].binder in AllBinders(t) {
      assert t[c][i] == rules[i];
    }
  }

  // ----- The builder and the mapper on the heap -----------------------------------------

  /** The `ArrayList<Rule>` holding one class's rules. The builder and every mapper built
      from it share the same list object. */
  class RuleList {
    var rules: seq<Rule>

    constructor ()
      ensures rules == []
    {
      rules := [];
    }
  }

  /** The rules the lists currently hold, by class. */
  function TableOf(lists: map<ClassId, RuleList>): Table
    reads lists.Values
  {
    map c | c in lists :: lists[c].rules
  }

  /** No list object is filed under two classes. */
  ghost predicate Unshared(lists: map<ClassId, RuleList>) {
    forall c, d :: c in lists && d in lists && c != d ==> lists[c] != lists[d]
  }

  class MapperBuilder {
    var rules: map<ClassId, RuleList>
    var stableIds: Option<bool>

    ghost predicate Valid()
      reads this
    {
      Unshared(rules)
    }

    function Table(): Table
      reads this, rules.Values
    {
      TableOf(rules)
    }

    constructor ()
      ensures Valid() && rules == map[] && stableIds == None
    {
      rules := map[];
      stableIds := None;
    }

    /** `bind(itemClass, overrideItemLayoutResource, binder, accepts)`: appends one rule at
        the end of `itemClass`'s list, creating the list on the first bind of that class. */
    method BindRule(itemClass: ClassId, overrideLayout: int, binder: Binder, accepts: Item -> bool)
      requires Valid()
      modifies this, rules.Values
      ensures Valid()
      ensures Table() == old(Table())[itemClass :=
        RulesFor(old(Table()), itemClass) + [Rule(accepts, OverrideLayout(binder, overrideLayout))]]
      ensures rules.Keys == old(rules.Keys) + {itemClass}
      ensures forall c :: c in old(rules) ==> rules[c] == old(rules[c])
      ensures fresh(rules.Values - old(rules.Values))
      ensures stableIds == old(stableIds)
    {
      ghost var before := Table();
      var rule := Rule(accepts, OverrideLayout(binder, overrideLayout));
      var list: RuleList;
      if itemClass in rules {
        list := rules[itemClass];
      } else {
        list := new RuleList();
      }
      rules := rules[itemClass := list];
      assert Unshared(rules) by {
        forall c, d | c in rules && d in rules && c != d ensures rules[c] != rules[d] {
          if c != itemClass && d != itemClass {
            assert rules[c] == old(rules)[c] && rules[d] == old(rules)[d];
          }
        }
      }
      list.rules := list.rules + [rule];
      ghost var after := before[itemClass := RulesFor(before, itemClass) + [rule]];
      assert Table().Keys == after.Keys;
      forall c | c in rules ensures Table()[c] == after[c] {
        if c != itemClass {
          assert rules[c] != list;
        }
      }
    }

    /** `bind(itemClass, overrideItemLayoutResource, binder)`: a rule that accepts every item. */
    method BindLayout(itemClass: ClassId, overrideLayout: int, binder: Binder)
      requires Valid()
      modifies this, rules.Values
      ensures Valid()
      ensures Table() == old(Table())[itemClass :=
        RulesFor(old(Table()), itemClass) + [Rule(Always, OverrideLayout(binder, overrideLayout))]]
      ensures rules.Keys == old(rules.Keys) + {itemClass}
      ensures forall c :: c in old(rules) ==> rules[c] == old(rules[c])
      ensures fresh(rules.Values - old(rules.Values))
      ensures stableIds == old(stableIds)
    {
      BindRule(itemClass, overrideLayout, binder, Always);
    }

    /** `bind(itemClass, binder, accepts)`: layout resource 0. */
    method BindIf(itemClass: ClassId, binder: Binder, accepts: Item -> bool)
      requires Valid()
      modifies this, rules.Values
      ensures Valid()
      ensures Table() == old(Table())[itemClass :=
        RulesFor(old(Table()), itemClass) + [Rule(accepts, OverrideLayout(binder, 0))]]
      ensures rules.Keys == old(rules.Keys) + {itemClass}
      ensures forall c :: c in old(rules) ==> rules[c] == old(rules[c])
      ensures fresh(rules.Values - old(rules.Values))
      ensures stableIds == old(stableIds)
    {
      BindRule(itemClass, 0, binder, accepts);
    }

    /** `bind(itemClass, binder)`: layout resource 0 and `ALWAYS`. */
    method Bind(itemClass: ClassId, binder: Binder)
      requires Valid()
      modifies this, rules.Values
      ensures Valid()
      ensures Table() == old(Table())[itemClass :=
        RulesFor(old(Table()), itemClass) + [Rule(Always, OverrideLayout(binder, 0))]]
      ensures rules.Keys == old(rules.Keys) + {itemClass}
      ensures forall c :: c in old(rules) ==> rules[c] == old(rules[c])
      ensures fresh(rules.Values - old(rules.Values))
      ensures stableIds == old(stableIds)
    {
      BindRule(itemClass, 0, binder, Always);
    }

    /** `stableIds(Boolean)`: sets the tri-state override; the last call wins. */
    method StableIds(override: Option<bool>)
      modifies this
      ensures stableIds == override && rules == old(rules)
    {
      stableIds := override;
    }

    /** `build()` as written: the class map is copied, but the rule lists are the builder's
        own, so binds on an already-bound class after `build` reach the built mapper. */
    method BuildSharingLists() returns (m: RuleMapper)
      ensures fresh(m) && m.rules == rules && m.stableIds == stableIds
      ensures m.Consistent()
    {
      m := new RuleMapper(rules, stableIds);
    }

    /** `build()` as a snapshot: every rule list is copied, so nothing the builder does later
        reaches the built mapper. */
    method Build() returns (m: RuleMapper)
      requires Valid()
      ensures fresh(m) && m.Table() == Table() && m.stableIds == stableIds
      ensures forall c :: c in m.rules ==> fresh(m.rules[c])
      ensures m.Consistent()
    {
      var copy: map<ClassId, RuleList> := map[];
      var pending := rules.Keys;
      while pending != {}
        invariant pending <= rules.Keys
        invariant copy.Keys == rules.Keys - pending
        invariant forall c :: c in copy ==> fresh(copy[c]) && copy[c].rules == rules[c].rules
        decreases pending
      {
        var c :| c in pending;
        var list := new RuleList();
        list.rules := rules[c].rules;
        copy := copy[c := list];
        pending := pending - {c};
      }
      m := new RuleMapper(copy, stableIds);
    }
  }

  /** The mapper `build` returns. */
  class RuleMapper {
    const rules: map<ClassId, RuleList>
    const allBinders: set<Binder>
    const stableIds: Option<bool>

    function Table(): Table
      reads rules.Values
    {
      TableOf(rules)
    }

    /** `mAllBinders` still names every binder the lists hold; it is computed once, at
        construction. */
    ghost predicate Consistent()
      reads rules.Values
    {
      allBinders == AllBinders(Table())
    }

    /** Collects the binder of every rule of every class into `mAllBinders`. */
    constructor (rules: map<ClassId, RuleList>, stableIds: Option<bool>)
      ensures this.rules == rules && this.stableIds == stableIds
      ensures allBinders == AllBinders(TableOf(rules))
    {
      var all: set<Binder> := {};
      var pending := rules.Keys;
      while pending != {}
        invariant pending <= rules.Keys
        invariant all == AllBinders(TableOf(rules) - pending)
        decreases pending
      {
        var c :| c in pending;
        var list := rules[c].rules;
        for i := 0 to |list|
          invariant all == AllBinders(TableOf(rules) - pending) + set j | 0 <= j < i :: list[j].binder
        {
          all := all + {list[i].binder};
        }
        assert (TableOf(rules) - (pending - {c})) == (TableOf(rules) - pending)[c := list];
        AllBindersOfAddedClass(TableOf(rules) - pending, c, list);
        pending := pending - {c};
      }
      assert TableOf(rules) - {} == TableOf(rules);
      this.rules := rules;
      this.allBinders := all;
      this.stableIds := stableIds;
    }

    /** `getBinder(item, position)`: walks the item's superclass chain, trying each class's
        rules in registration order. `position` plays no part. */
    method GetBinder(h: Hierarchy, item: Item, position: int) returns (r: Option<Binder>)
      requires h.Valid()
      ensures r == Resolve(h, Table(), item)
      ensures Consistent() && r.Some? ==> r.value in allBinders
    {
      ghost var table := Table();
      ghost var chain := Ancestry(h, item.cls);
      ghost var k := 0;
      var itemClass := Some(item.cls);
      while itemClass.Some?
        invariant 0 <= k <= |chain|
        invariant itemClass.Some? <==> k < |chain|
        invariant itemClass.Some? ==> itemClass.value == chain[k]
        invariant ResolveAlong(chain, table, item) == ResolveAlong(chain[k..], table, item)
        decreases |chain| - k
      {
        if itemClass.value in rules {
          var list := rules[itemClass.value].rules;
          assert list == RulesFor(table, chain[k]);
          var i := 0;
          while i < |list|
            invariant 0 <= i <= |list|
            invariant FirstMatch(list, item) == FirstMatch(list[i..], item)
          {
            if list[i].accepts(item) {
              r := Some(list[i].binder);
              assert ResolveAlong(chain[k..], table, item) == r;
              ResolvedBinderIsListed(chain, table, item);
              return;
            }
            assert list[i..][1..] == list[i + 1..];
            i := i + 1;
          }
        }
        assert chain[k..][1..] == chain[k + 1..];
        itemClass := h.SuperclassOf(itemClass.value);
        k := k + 1;
      }
      r := None;
    }

    /** `hasStableIds()`: the builder's override when one was set, otherwise the default
        `inherited` that `AbstractMapper` supplies. */
    function HasStableIds(inherited: bool): (r: bool)
      ensures stableIds.Some? ==> r == stableIds.value
      ensures stableIds.None? ==> r == inherited
    {
      if stableIds.Some? then stableIds.value else inherited
    }
  }

  /** A table holding one rule for class 0 lists exactly that rule's binder. */
  lemma SingleRuleBinders(r: Rule)
    ensures AllBinders(map[0 := [r]]) == {r.binder}
  {
    AllBindersOfAddedClass(map[], 0, [r]);
    assert (set i | 0 <= i < |[r]| :: [r][i].binder) == {r.binder} by {
      assert [r][0].binder == r.binder;
    }
    assert map[][0 := [r]] == map[0 := [r]];
  }

  /** `bind(0, Base(1), reject)` on a new builder, then `build()` as written. */
  method BindThenBuild(reject: Item -> bool) returns (builder: MapperBuilder, m: RuleMapper)
    ensures fresh(builder) && builder.Valid() && builder.rules.Keys == {0} && fresh(builder.rules[0])
    ensures builder.Table() == map[0 := [Rule(reject, Overridden(Base(1), 0))]]
    ensures m.rules == builder.rules && m.allBinders == {Overridden(Base(1), 0)}
  {
    var first := Rule(reject, Overridden(Base(1), 0));
    builder := new MapperBuilder();
    assert builder.Table() == map[];
    builder.BindIf(0, Base(1), reject);
    assert [] + [first] == [first];
    m := builder.BuildSharingLists();
    SingleRuleBinders(first);
  }

  /** `bind(0, Base(1), reject)`, `build()` as written, then `bind(0, Base(2))`: the second rule
      lands in the list the mapper shares, after `mAllBinders` was computed. */
  method BindBuildBind(reject: Item -> bool) returns (m: RuleMapper)
    ensures m.Table() == map[0 := [Rule(reject, Overridden(Base(1), 0)), Rule(Always, Overridden(Base(2), 0))]]
    ensures m.allBinders == {Overridden(Base(1), 0)}
  {
    var first := Rule(reject, Overridden(Base(1), 0));
    var second := Rule(Always, Overridden(Base(2), 0));
    var builder;
    builder, m := BindThenBuild(reject);
    builder.Bind(0, Base(2));
    assert builder.rules.Keys == {0} && builder.rules[0] == m.rules[0];
    assert m.rules == builder.rules;
    assert RulesFor(map[0 := [first]], 0) + [second] == [first, second];
  }

  /** `build()` as written, then the first bind of a class the builder had not bound: the new
      list is the builder's alone, so the built mapper neither sees its rule nor loses
      consistency. */
  method NewClassAfterBuildIsInvisible(builder: MapperBuilder, itemClass: ClassId, binder: Binder)
    returns (m: RuleMapper)
    requires builder.Valid() && itemClass !in builder.rules
    modifies builder, builder.rules.Values
    ensures m.Table() == old(builder.Table()) && m.Consistent()
    ensures builder.Table() == old(builder.Table())[itemClass := [Rule(Always, OverrideLayout(binder, 0))]]
  {
    ghost var before := builder.Table();
    m := builder.BuildSharingLists();
    builder.Bind(itemClass, binder);
    assert m.Table() == before by {
      forall d | d in m.rules ensures m.rules[d].rules == before[d] {
        assert builder.rules[d] == m.rules[d];
        assert builder.Table()[d] == before[d];
      }
    }
    assert RulesFor(before, itemClass) + [Rule(Always, OverrideLayout(binder, 0))]
      == [Rule(Always, OverrideLayout(binder, 0))];
  }

  /** A bind on an already-bound class after `build` lengthens the list the built mapper
      shares, but `mAllBinders` was fixed at construction: `getBinder` then returns a binder
      that `getAllBinders` does not list. */
  method SharedListOutrunsAllBinders() returns (resolved: Option<Binder>, advertised: set<Binder>)
    ensures resolved.Some? && resolved.value !in advertised
  {
    var h := Hierarchy(map[], map[]);
    var reject: Item -> bool := _ => false;
    var m := BindBuildBind(reject);
    resolved := m.GetBinder(h, Item(0, 0), 0);
    advertised := m.allBinders;
    var first := Rule(reject, Overridden(Base(1), 0));
    var second := Rule(Always, Overridden(Base(2), 0));
    assert Ancestry(h, 0) == [0];
    assert FirstMatch([first, second], Item(0, 0)) == Some(second.binder) by {
      assert !first.accepts(Item(0, 0));
      assert [first, second][1..] == [second];
    }
  }

  /** With the copying `Build`, a later bind leaves the built mapper's rules as they were at
      build time, and `getAllBinders` keeps listing every binder `getBinder` can return. */
  method SnapshotIgnoresLaterBinds(builder: MapperBuilder, itemClass: ClassId, binder: Binder)
    returns (m: RuleMapper)
    requires builder.Valid()
    modifies builder, builder.rules.Values
    ensures m.Table() == old(builder.Table()) && m.Consistent()
    ensures builder.Table() == old(builder.Table())[itemClass :=
      RulesFor(old(builder.Table()), itemClass) + [Rule(Always, OverrideLayout(binder, 0))]]
  {
    ghost var lists := builder.rules.Values;
    m := builder.Build();
    ghost var snapshot := m.Table();
    builder.Bind(itemClass, binder);
    assert m.Table() == snapshot by {
      forall c | c in m.rules ensures m.rules[c].rules == snapshot[c] {
        assert fresh(m.rules[c]);
        assert m.rules[c] !in lists;
      }
    }
  }
}
