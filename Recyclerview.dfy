/** `RecyclerConverterAdapter`: presents a `PowerAdapter` to `RecyclerView`. It interns the
    adapter's view-type objects as dense ints, shares one upstream subscription among all host
    observers, and checks a shadow item count against the adapter's live count on every
    change event before forwarding it. */
module Recyclerview {
  import opened Common

  /** The host notifications the adapter emits (`RecyclerView.Adapter.notify*`). */
  datatype Notification =
    | DataSetChanged
    | ItemRangeChanged(positionStart: int, itemCount: int)
    | ItemRangeInserted(positionStart: int, itemCount: int)
    | ItemRangeRemoved(positionStart: int, itemCount: int)
    | ItemMoved(fromPosition: int, toPosition: int)

  /** The outcome of `validateItemCount`: `Inconsistent` is the `IllegalStateException`
      "Inconsistency detected: expected item count <expected> but it is <actual>". */
  datatype Outcome = Pass | Inconsistent(expected: int, actual: int)

  /** A host observer, by identity. */
  type ObserverId = nat

  /** `ViewType` stands for the adapter's view-type objects, compared with `equals`. The live
      item count, `mPowerAdapter.getItemCount()`, is passed to every operation that reads it. */
  class RecyclerConverterAdapter<ViewType(==)> {
    var observers: set<ObserverId>
    /** Whether `mDataSetObserver` is registered with the `PowerAdapter`. */
    var subscribed: bool
    var viewTypeObjectToInt: map<ViewType, int>
    var viewTypeIntToObject: map<int, ViewType>
    var nextViewTypeInt: int
    var shadowItemCount: int
    /** Every notification forwarded to the host, oldest first. */
    var notifications: seq<Notification>
    /** The view types in the order they were first interned. */
    ghost var interned: seq<ViewType>

    ghost predicate Valid()
      reads this
    {
      && subscribed == (observers != {})
      && (observers == {} ==> shadowItemCount == 0)
      && nextViewTypeInt == |interned|
      && (forall i, j :: 0 <= i < j < |interned| ==> interned[i] != interned[j])
      && viewTypeIntToObject == (map i | 0 <= i < |interned| :: interned[i])
      && viewTypeObjectToInt.Keys == (set i | 0 <= i < |interned| :: interned[i])
      && (forall i :: 0 <= i < |interned| ==> viewTypeObjectToInt[interned[i]] == i)
    }

    constructor ()
      ensures Valid()
      ensures observers == {} && notifications == [] && interned == [] && shadowItemCount == 0
    {
      observers := {};
      subscribed := false;
      viewTypeObjectToInt := map[];
      viewTypeIntToObject := map[];
      nextViewTypeInt := 0;
      shadowItemCount := 0;
      notifications := [];
      interned := [];
    }

    /** The two view-type maps are mutual inverses. */
    lemma ViewTypeMapsAreInverse()
      requires Valid()
      ensures forall t :: t in viewTypeObjectToInt ==>
        viewTypeObjectToInt[t] in viewTypeIntToObject && viewTypeIntToObject[viewTypeObjectToInt[t]] == t
      ensures forall i :: i in viewTypeIntToObject ==>
        viewTypeIntToObject[i] in viewTypeObjectToInt && viewTypeObjectToInt[viewTypeIntToObject[i]] == i
    {
      forall t | t in viewTypeObjectToInt
        ensures viewTypeObjectToInt[t] in viewTypeIntToObject && viewTypeIntToObject[viewTypeObjectToInt[t]] == t
      {
        var i :| 0 <= i < |interned| && interned[i] == t;
      }
    }

    /** `getItemViewType(position)`, where `viewType` is what `mPowerAdapter.getItemViewType`
        returned for the position: a view type seen before keeps its int; a new one gets the
        next int. */
    method GetItemViewType(viewType: ViewType) returns (viewTypeInt: int)
      requires Valid()
      modifies this
      ensures Valid()
      ensures old(viewType in viewTypeObjectToInt) ==>
        && viewTypeInt == old(viewTypeObjectToInt[viewType])
        && interned == old(interned) && nextViewTypeInt == old(nextViewTypeInt)
        && viewTypeObjectToInt == old(viewTypeObjectToInt) && viewTypeIntToObject == old(viewTypeIntToObject)
      ensures old(viewType !in viewTypeObjectToInt) ==>
        && viewTypeInt == old(nextViewTypeInt) && nextViewTypeInt == old(nextViewTypeInt) + 1
        && interned == old(interned) + [viewType]
        && viewTypeObjectToInt == old(viewTypeObjectToInt)[viewType := viewTypeInt]
        && viewTypeIntToObject == old(viewTypeIntToObject)[viewTypeInt := viewType]
      ensures viewTypeInt in viewTypeIntToObject && viewTypeIntToObject[viewTypeInt] == viewType
      ensures observers == old(observers) && subscribed == old(subscribed)
      ensures shadowItemCount == old(shadowItemCount) && notifications == old(notifications)
    {
      if viewType in viewTypeObjectToInt {
        viewTypeInt := viewTypeObjectToInt[viewType];
        ghost var i :| 0 <= i < |interned| && interned[i] == viewType;
      } else {
        viewTypeInt := nextViewTypeInt;
        nextViewTypeInt := nextViewTypeInt + 1;
        viewTypeObjectToInt := viewTypeObjectToInt[viewType := viewTypeInt];
        viewTypeIntToObject := viewTypeIntToObject[viewTypeInt := viewType];
        ghost var before := interned;
        interned := interned + [viewType];
        assert (set i | 0 <= i < |interned| :: interned[i]) == (set i | 0 <= i < |before| :: before[i]) + {viewType} by {
          assert interned[|before|] == viewType;
          forall i | 0 <= i < |before| ensures interned[i] == before[i] {
            assert interned == before + [viewType];
          }
        }
      }
    }

    /** The view-type lookup of `onCreateViewHolder(parent, itemViewType)`: the object interned
        at that int, or null for an int never handed out. */
    method OnCreateViewHolder(itemViewType: int) returns (viewType: Option<ViewType>)
      requires Valid()
      ensures viewType.Some? <==> 0 <= itemViewType < nextViewTypeInt
      ensures viewType.Some? ==>
        viewType.value == interned[itemViewType] && viewTypeObjectToInt[viewType.value] == itemViewType
    {
      if itemViewType in viewTypeIntToObject {
        viewType := Some(viewTypeIntToObject[itemViewType]);
      } else {
        viewType := None;
      }
    }

    /** `registerAdapterDataObserver`: the first observer snapshots the live count and
        subscribes upstream; any other registration only joins the set. */
    method RegisterAdapterDataObserver(observer: ObserverId, liveItemCount: int)
      requires Valid()
      modifies this
      ensures Valid()
      ensures observers == old(observers) + {observer}
      ensures old(observers) == {} ==> subscribed && shadowItemCount == liveItemCount
      ensures old(observers) != {} ==> subscribed == old(subscribed) && shadowItemCount == old(shadowItemCount)
      ensures notifications == old(notifications) && interned == old(interned)
      ensures viewTypeObjectToInt == old(viewTypeObjectToInt) && viewTypeIntToObject == old(viewTypeIntToObject)
      ensures nextViewTypeInt == old(nextViewTypeInt)
    {
      var added := observer !in observers;
      observers := observers + {observer};
      if added && |observers| == 1 {
        shadowItemCount := liveItemCount;
        subscribed := true;
      }
    }

    /** `unregisterAdapterDataObserver`: removing the last observer unsubscribes upstream and
        resets the shadow count; any other removal only leaves the set. */
    method UnregisterAdapterDataObserver(observer: ObserverId)
      requires Valid()
      modifies this
      ensures Valid()
      ensures observers == old(observers) - {observer}
      ensures old(observers) == {observer} ==> !subscribed && shadowItemCount == 0
      ensures old(observers) != {observer} ==> subscribed == old(subscribed) && shadowItemCount == old(shadowItemCount)
      ensures notifications == old(notifications) && interned == old(interned)
      ensures viewTypeObjectToInt == old(viewTypeObjectToInt) && viewTypeIntToObject == old(viewTypeIntToObject)
      ensures nextViewTypeInt == old(nextViewTypeInt)
    {
      var removed := observer in observers;
      observers := observers - {observer};
      if removed && |observers| == 0 {
        subscribed := false;
        shadowItemCount := 0;
      }
    }

    /** `getObserverCount()`: zero exactly when there is no upstream subscription. */
    function GetObserverCount(): (n: nat)
      reads this
      requires Valid()
      ensures n == 0 <==> !subscribed
      ensures n == |observers|
    {
      |observers|
    }

    /** `validateItemCount()`: the shadow count must equal the live count. */
    function ValidateItemCount(liveItemCount: int): (outcome: Outcome)
      reads this
      ensures outcome.Pass? <==> shadowItemCount == liveItemCount
      ensures outcome.Inconsistent? ==> outcome.expected == shadowItemCount && outcome.actual == liveItemCount
    {
      if shadowItemCount != liveItemCount then Inconsistent(shadowItemCount, liveItemCount) else Pass
    }

    /** `onChanged()`: the shadow count is reset from the live count, without a check. */
    method OnChanged(liveItemCount: int)
      requires Valid() && subscribed
      modifies this
      ensures Valid()
      ensures shadowItemCount == liveItemCount
      ensures notifications == old(notifications) + [DataSetChanged]
      ensures observers == old(observers) && subscribed == old(subscribed) && interned == old(interned)
      ensures viewTypeObjectToInt == old(viewTypeObjectToInt) && viewTypeIntToObject == old(viewTypeIntToObject)
      ensures nextViewTypeInt == old(nextViewTypeInt)
    {
      shadowItemCount := liveItemCount;
      notifications := notifications + [DataSetChanged];
    }

    /** `onItemRangeChanged`: checked, then forwarded unchanged. */
    method OnItemRangeChanged(positionStart: int, itemCount: int, liveItemCount: int)
      returns (outcome: Outcome)
      requires Valid() && subscribed
      modifies this
      ensures Valid()
      ensures outcome == ValidateItemCount(liveItemCount)
      ensures outcome.Pass? <==> shadowItemCount == liveItemCount
      ensures shadowItemCount == old(shadowItemCount)
      ensures notifications == old(notifications) +
        (if outcome.Pass? then [ItemRangeChanged(positionStart, itemCount)] else [])
      ensures observers == old(observers) && subscribed == old(subscribed) && interned == old(interned)
      ensures viewTypeObjectToInt == old(viewTypeObjectToInt) && viewTypeIntToObject == old(viewTypeIntToObject)
      ensures nextViewTypeInt == old(nextViewTypeInt)
    {
      outcome := ValidateItemCount(liveItemCount);
      if outcome.Inconsistent? {
        return;
      }
      notifications := notifications + [ItemRangeChanged(positionStart, itemCount)];
    }

    /** `onItemRangeInserted`: the shadow count grows by `itemCount` before the check, and
        keeps that value when the check fails. */
    method OnItemRangeInserted(positionStart: int, itemCount: int, liveItemCount: int)
      returns (outcome: Outcome)
      requires Valid() && subscribed
      modifies this
      ensures Valid()
      ensures shadowItemCount == old(shadowItemCount) + itemCount
      ensures outcome == ValidateItemCount(liveItemCount)
      ensures outcome.Pass? <==> old(shadowItemCount) + itemCount == liveItemCount
      ensures notifications == old(notifications) +
        (if outcome.Pass? then [ItemRangeInserted(positionStart, itemCount)] else [])
      ensures observers == old(observers) && subscribed == old(subscribed) && interned == old(interned)
      ensures viewTypeObjectToInt == old(viewTypeObjectToInt) && viewTypeIntToObject == old(viewTypeIntToObject)
      ensures nextViewTypeInt == old(nextViewTypeInt)
    {
      shadowItemCount := shadowItemCount + itemCount;
      outcome := ValidateItemCount(liveItemCount);
      if outcome.Inconsistent? {
        return;
      }
      notifications := notifications + [ItemRangeInserted(positionStart, itemCount)];
    }

    /** `onItemRangeRemoved`: the shadow count shrinks by `itemCount` before the check, and
        keeps that value when the check fails. */
    method OnItemRangeRemoved(positionStart: int, itemCount: int, liveItemCount: int)
      returns (outcome: Outcome)
      requires Valid() && subscribed
      modifies this
      ensures Valid()
      ensures shadowItemCount == old(shadowItemCount) - itemCount
      ensures outcome == ValidateItemCount(liveItemCount)
      ensures outcome.Pass? <==> old(shadowItemCount) - itemCount == liveItemCount
      ensures notifications == old(notifications) +
        (if outcome.Pass? then [ItemRangeRemoved(positionStart, itemCount)] else [])
      ensures observers == old(observers) && subscribed == old(subscribed) && interned == old(interned)
      ensures viewTypeObjectToInt == old(viewTypeObjectToInt) && viewTypeIntToObject == old(viewTypeIntToObject)
      ensures nextViewTypeInt == old(nextViewTypeInt)
    {
      shadowItemCount := shadowItemCount - itemCount;
      outcome := ValidateItemCount(liveItemCount);
      if outcome.Inconsistent? {
        return;
      }
      notifications := notifications + [ItemRangeRemoved(positionStart, itemCount)];
    }

    /** `onItemRangeMoved`: checked; a single-item move is forwarded as a move, any other
        count collapses into a full data-set change. */
    method OnItemRangeMoved(fromPosition: int, toPosition: int, itemCount: int, liveItemCount: int)
      returns (outcome: Outcome)
      requires Valid() && subscribed
      modifies this
      ensures Valid()
      ensures outcome == ValidateItemCount(liveItemCount)
      ensures outcome.Pass? <==> shadowItemCount == liveItemCount
      ensures shadowItemCount == old(shadowItemCount)
      ensures notifications == old(notifications) +
        (if outcome.Inconsistent? then []
         else if itemCount == 1 then [ItemMoved(fromPosition, toPosition)]
         else [DataSetChanged])
      ensures observers == old(observers) && subscribed == old(subscribed) && interned == old(interned)
      ensures viewTypeObjectToInt == old(viewTypeObjectToInt) && viewTypeIntToObject == old(viewTypeIntToObject)
      ensures nextViewTypeInt == old(nextViewTypeInt)
    {
      outcome := ValidateItemCount(liveItemCount);
      if outcome.Inconsistent? {
        return;
      }
      if itemCount == 1 {
        notifications := notifications + [ItemMoved(fromPosition, toPosition)];
      } else {
        notifications := notifications + [DataSetChanged];
      }
    }
  }

  /** One session of the bridge: the first observer registers while the adapter holds 10
      items; an insert of 2 that the adapter really made is forwarded, a three-item move is
      forwarded as a full change, and an insert of 2 after which the adapter holds only 13
      items fails without being forwarded. Unregistering the observer then resets the shadow
      count, and a new observer snapshots the adapter's count afresh. */
  method ChangeBridgeSession() returns (log: seq<Notification>, failure: Outcome, shadow: int)
    ensures log == [ItemRangeInserted(0, 2), DataSetChanged]
    ensures failure == Inconsistent(14, 13)
    ensures shadow == 13
  {
    var adapter := new RecyclerConverterAdapter<int>();
    adapter.RegisterAdapterDataObserver(1, 10);
    var ok := adapter.OnItemRangeInserted(0, 2, 12);
    ok := adapter.OnItemRangeMoved(0, 5, 3, 12);
    failure := adapter.OnItemRangeInserted(0, 2, 13);
    log := adapter.notifications;
    adapter.UnregisterAdapterDataObserver(1);
    assert adapter.shadowItemCount == 0;
    adapter.RegisterAdapterDataObserver(2, 13);
    shadow := adapter.shadowItemCount;
  }
}
