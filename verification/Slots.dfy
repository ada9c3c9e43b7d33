/** Delete-slot arithmetic: which ordinals a set wants, given `spec.replicas` and
    the `delete-slots` annotation.

    The bound the code computes by growing a counter is characterised as a least
    fixed point; everything else in the module is proved about that fixed point. */
module Slots {

  const MAX_INT32: int := 0x7FFF_FFFF
  const MIN_INT32: int := -0x8000_0000

  type int32 = x: int | MIN_INT32 <= x <= MAX_INT32

  /** The increment of a 32-bit counter, which wraps around. */
  function Increment(x: int32): int32 {
    if x == MAX_INT32 then MIN_INT32 else x + 1
  }

  /** The slots below a bound. */
  function Below(slots: set<int>, bound: int): set<int> {
    set s | s in slots && s < bound
  }

  /** `bound` makes room for `replicas` ordinals besides the slots below it. */
  predicate Balanced(replicas: int, slots: set<int>, bound: int) {
    bound == replicas + |Below(slots, bound)|
  }

  /** The least balanced bound, found by climbing from `from`. */
  function Climb(replicas: int, slots: set<int>, from: int): (bound: int)
    requires from <= replicas + |Below(slots, from)|
    ensures from <= bound && Balanced(replicas, slots, bound)
    ensures forall x :: from <= x && Balanced(replicas, slots, x) ==> bound <= x
    decreases replicas + |slots| - from
  {
    SubsetSize(Below(slots, from), slots);
    if Balanced(replicas, slots, from) then from
    else
      SubsetSize(Below(slots, from), Below(slots, from + 1));
      Climb(replicas, slots, from + 1)
  }

  function MaxCount(replicas: int, slots: set<int>): (bound: int)
    ensures Balanced(replicas, slots, bound)
    ensures forall x :: Balanced(replicas, slots, x) ==> bound <= x
  {
    Climb(replicas, slots, replicas)
  }

  /** The ordinals in [0, count) that are not slots. */
  function Wanted(count: int, slots: set<int>): set<int> {
    set i | 0 <= i < count && i !in slots
  }

  /** The ordinals a set with these `replicas` and `slots` should run. */
  function PodOrdinals(replicas: int, slots: set<int>): set<int> {
    Wanted(MaxCount(replicas, slots), slots)
  }

  // ---------------------------------------------------------------- set sizes

  lemma SubsetSize<T>(a: set<T>, b: set<T>)
    requires a <= b
    ensures |a| <= |b|
    ensures |a| == |b| ==> a == b
  {
    assert b == a + (b - a);
  }

  function Interval(n: nat): (s: set<int>)
    ensures |s| == n
    ensures forall i :: i in s <==> 0 <= i < n
  {
    if n == 0 then {} else Interval(n - 1) + {n - 1}
  }

  // ------------------------------------------------------- the 64-bit and 32-bit code

  /** An element of a set, whichever the iteration order yields. */
  method Pick<T>(items: set<T>) returns (item: T)
    requires items != {}
    ensures item in items
  {
    item :| item in items;
  }

  ghost function Elements(list: seq<int>): set<int> {
    set s | s in list
  }

  ghost predicate Ascending(list: seq<int>, items: set<int>) {
    && (forall i, j :: 0 <= i < j < |list| ==> list[i] < list[j])
    && Elements(list) == items
  }

  method Least(items: set<int>) returns (least: int)
    requires items != {}
    ensures least in items && forall s :: s in items ==> least <= s
  {
    least := Pick(items);
    var rest := items - {least};
    while rest != {}
      invariant rest < items && least in items
      invariant forall s :: s in items ==> s in rest || least <= s
      decreases |rest|
    {
      var s := Pick(rest);
      rest := rest - {s};
      if s < least {
        least := s;
      }
    }
  }

  lemma AscendingAppend(list: seq<int>, items: set<int>, top: int)
    requires Ascending(list, items) && forall i :: 0 <= i < |list| ==> list[i] < top
    ensures Ascending(list + [top], items + {top})
  {
    assert Elements(list + [top]) == Elements(list) + {top};
  }

  /** `sets.List`: the elements in ascending order. */
  method List(items: set<int>) returns (list: seq<int>)
    ensures Ascending(list, items)
  {
    list := [];
    var rest := items;
    while rest != {}
      invariant rest <= items && Ascending(list, items - rest)
      invariant forall i, s :: 0 <= i < |list| && s in rest ==> list[i] < s
      decreases |rest|
    {
      var least := Least(rest);
      AscendingAppend(list, items - rest, least);
      assert items - (rest - {least}) == (items - rest) + {least};
      list := list + [least];
      rest := rest - {least};
    }
  }

  lemma ElementsSize(list: seq<int>)
    requires forall i, j :: 0 <= i < j < |list| ==> list[i] < list[j]
    ensures |Elements(list)| == |list|
  {
    if list != [] {
      var front := list[..|list| - 1];
      ElementsSize(front);
      assert list == front + [list[|list| - 1]];
      assert Elements(list) == Elements(front) + {list[|list| - 1]};
    }
  }

  /** While the first `k` slots have all pushed the bound up, no bound below
      `replicas + k` is balanced; if the k-th slot does not, the bound is found. */
  lemma Frontier(replicas: int, slots: set<int>, list: seq<int>, k: nat)
    requires Ascending(list, slots) && k <= |list|
    requires forall j :: 0 <= j < k ==> list[j] < replicas + j
    ensures replicas + k <= MaxCount(replicas, slots)
    ensures k == |list| || replicas + k <= list[k]
            ==> MaxCount(replicas, slots) == replicas + k
                && Below(slots, replicas + k) == Elements(list[..k])
  {
    forall x | Balanced(replicas, slots, x)
      ensures replicas + k <= x
    {
      var m := x - replicas;
      if m < k {
        assert forall j :: 0 <= j <= m ==> list[j] <= list[m] < x;
        assert Elements(list[..m + 1]) <= Below(slots, x);
        SubsetSize(Elements(list[..m + 1]), Below(slots, x));
        ElementsSize(list[..m + 1]);
      }
    }
    if k == |list| || replicas + k <= list[k] {
      forall s
        ensures s in Below(slots, replicas + k) <==> s in Elements(list[..k])
      {
        if s in slots && s < replicas + k {
          var j :| 0 <= j < |list| && list[j] == s;
          assert j < k;
          assert list[..k][j] == s;
        }
        if s in list[..k] {
          var j :| 0 <= j < k && list[j] == s;
          assert list[j] < replicas + j;
        }
      }
      ElementsSize(list[..k]);
      assert Below(slots, replicas + k) == Elements(list[..k]);
      assert Balanced(replicas, slots, replicas + k);
    }
  }

  /** The controller's 32-bit version, working on a copy of the slots. When the
      bound does not fit in 32 bits the counter wraps to the least integer, and only the
      least slots, which drove it there, are kept. */
  method GetMaxReplicaCountAndDeleteSlots(replicas: int32, deleteSlots: set<int32>)
    returns (replicaCount: int32, kept: set<int32>)
    ensures MaxCount(replicas, deleteSlots) <= MAX_INT32 ==>
              replicaCount == MaxCount(replicas, deleteSlots)
              && kept == Below(deleteSlots, replicaCount)
    ensures MaxCount(replicas, deleteSlots) > MAX_INT32 ==>
              replicaCount == MIN_INT32 && LeastSlots(kept, deleteSlots, MAX_INT32 - replicas + 1)
  {
    NoElements();
    hide Elements, LeastSlots, MaxCount, Balanced, Below;
    replicaCount := replicas;
    kept := deleteSlots;
    var list := List(deleteSlots);
    ghost var grown := 0; // how many leading slots have pushed the bound up
    ghost var wrapped := false;
    assert list[0..] == list && list[..0] == [];
    for i := 0 to |list|
      invariant 0 <= grown <= i
      invariant forall j :: 0 <= j < grown ==> list[j] < replicas + j
      invariant grown < i ==> wrapped || forall j :: grown <= j < |list| ==> replicas + grown <= list[j]
      invariant !wrapped ==> replicaCount == replicas + grown
      invariant wrapped ==> replicaCount == MIN_INT32 && replicas + grown == MAX_INT32 + 1
      invariant kept == Elements(list[..grown]) + Elements(list[i..])
    {
      var deleteSlot := list[i];
      SlotListed(list, deleteSlots, i);
      if deleteSlot < replicaCount {
        SlotKept(list, i);
        if replicaCount == MAX_INT32 { wrapped := true; }
        replicaCount := Increment(replicaCount);
        grown := grown + 1;
      } else {
        SlotDropped(list, grown, i);
        kept := kept - {deleteSlot};
      }
    }
    Frontier(replicas, deleteSlots, list, grown);
    assert list[|list|..] == [];
    LeadingAreLeast(list, deleteSlots, grown);
  }

  lemma SlotListed(list: seq<int>, slots: set<int>, i: nat)
    requires Ascending(list, slots) && i < |list|
    ensures list[i] in slots
  {
    assert list[i] in Elements(list);
  }

  lemma NoElements()
    ensures Elements([]) == {}
  {
  }

  /** `kept` are the `n` least of the slots. */
  ghost predicate LeastSlots(kept: set<int>, slots: set<int>, n: int) {
    kept <= slots && |kept| == n && forall k, s :: k in kept && s in slots - kept ==> k < s
  }

  lemma LeadingAreLeast(list: seq<int>, slots: set<int>, n: nat)
    requires Ascending(list, slots) && n <= |list|
    ensures LeastSlots(Elements(list[..n]), slots, n)
  {
    var kept := Elements(list[..n]);
    ElementsSize(list[..n]);
    assert list == list[..n] + list[n..];
    assert slots == kept + Elements(list[n..]);
    forall k, s | k in kept && s in Elements(list[n..])
      ensures k < s
    {
      var i :| 0 <= i < n && list[..n][i] == k;
      var j :| 0 <= j < |list| - n && list[n..][j] == s;
      assert list[i] < list[n + j];
    }
  }

  /** The set type of the v1alpha1 helper: a reference to a mutable set. */
  class IntSet {
    var items: set<int>

    constructor (items: set<int>)
      ensures this.items == items
    {
      this.items := items;
    }

    method Delete(x: int)
      modifies this
      ensures items == old(items) - {x}
    {
      items := items - {x};
    }
  }

  /** One slot of the scan stays among the leading ones, */
  lemma SlotKept(list: seq<int>, i: nat)
    requires i < |list|
    ensures Elements(list[..i + 1]) + Elements(list[i + 1..]) == Elements(list[..i]) + Elements(list[i..])
  {
    assert list[..i + 1] == list[..i] + [list[i]] && list[i..] == [list[i]] + list[i + 1..];
    assert Elements(list[..i + 1]) == Elements(list[..i]) + {list[i]};
    assert Elements(list[i..]) == {list[i]} + Elements(list[i + 1..]);
  }

  /** or goes. */
  lemma SlotDropped(list: seq<int>, grown: nat, i: nat)
    requires grown <= i < |list| && forall j, k :: 0 <= j < k < |list| ==> list[j] < list[k]
    ensures Elements(list[..grown]) + Elements(list[i + 1..])
            == (Elements(list[..grown]) + Elements(list[i..])) - {list[i]}
  {
    assert list[i..] == [list[i]] + list[i + 1..];
    assert Elements(list[i..]) == {list[i]} + Elements(list[i + 1..]);
    assert list[i] !in Elements(list[..grown]) && list[i] !in Elements(list[i + 1..]);
  }

  /** The v1alpha1 helper deletes from the caller's own set. */
  method GetMaxReplicaCountAndDeleteSlotsInPlace(replicas: int, deleteSlots: IntSet)
    returns (replicaCount: int, kept: IntSet)
    modifies deleteSlots
    ensures kept == deleteSlots
    ensures replicaCount == MaxCount(replicas, old(deleteSlots.items))
    ensures deleteSlots.items == Below(old(deleteSlots.items), replicaCount)
  {
    replicaCount := replicas;
    ghost var slots := deleteSlots.items;
    var list := List(deleteSlots.items);
    assert list[0..] == list && list[..0] == [] && Elements([]) == {} && Elements(list) == slots;
    ghost var grown := 0;
    for i := 0 to |list|
      invariant 0 <= grown <= i
      invariant forall j :: 0 <= j < grown ==> list[j] < replicas + j
      invariant grown < i ==> forall j :: grown <= j < |list| ==> replicas + grown <= list[j]
      invariant replicaCount == replicas + grown
      invariant deleteSlots.items == Elements(list[..grown]) + Elements(list[i..])
    {
      var deleteSlot := list[i];
      if deleteSlot < replicaCount {
        SlotKept(list, i);
        replicaCount := replicaCount + 1;
        grown := grown + 1;
      } else {
        SlotDropped(list, grown, i);
        deleteSlots.Delete(deleteSlot);
      }
    }
    Frontier(replicas, slots, list, grown);
    assert list[|list|..] == [] && Elements([]) == {};
    kept := deleteSlots;
  }

  method GetPodOrdinals(replicas: int32, deleteSlots: set<int32>) returns (ordinals: set<int32>)
    ensures MaxCount(replicas, deleteSlots) <= MAX_INT32 ==>
              ordinals == PodOrdinals(replicas, deleteSlots)
    ensures MaxCount(replicas, deleteSlots) > MAX_INT32 ==> ordinals == {}
  {
    var maxReplicaCount, slots := GetMaxReplicaCountAndDeleteSlots(replicas, deleteSlots);
    ordinals := {};
    var i: int32 := 0;
    while i < maxReplicaCount
      invariant 0 <= i
      invariant if 0 <= maxReplicaCount then i <= maxReplicaCount else i == 0
      invariant ordinals == Wanted(i, slots)
      decreases maxReplicaCount - i
    {
      if i !in slots {
        ordinals := ordinals + {i};
      }
      i := i + 1;
    }
    assert maxReplicaCount < 0 ==> Wanted(maxReplicaCount, slots) == Wanted(0, slots);
    assert MaxCount(replicas, deleteSlots) <= MAX_INT32 ==>
        Wanted(maxReplicaCount, slots) == Wanted(maxReplicaCount, deleteSlots);
  }

  method GetMaxPodOrdinal(replicas: int32, deleteSlots: set<int32>) returns (max: int32)
    ensures MaxCount(replicas, deleteSlots) <= MAX_INT32 ==>
              (forall k :: k in PodOrdinals(replicas, deleteSlots) ==> k <= max)
              && (max in PodOrdinals(replicas, deleteSlots)
                  || (PodOrdinals(replicas, deleteSlots) == {} && max == -1))
    ensures MaxCount(replicas, deleteSlots) <= MAX_INT32
            && 0 <= replicas && (forall s :: s in deleteSlots ==> 0 <= s)
            ==> max == MaxCount(replicas, deleteSlots) - 1
    ensures MaxCount(replicas, deleteSlots) > MAX_INT32 ==> max == -1
  {
    max := -1;
    var ordinals := GetPodOrdinals(replicas, deleteSlots);
    var rest := ordinals;
    while rest != {}
      invariant rest <= ordinals
      invariant max == -1 || max in ordinals
      invariant -1 <= max
      invariant forall k :: k in ordinals && k !in rest ==> k <= max
      decreases |rest|
    {
      var k := Pick(rest);
      rest := rest - {k};
      if k > max {
        max := k;
      }
    }
    if 0 <= replicas && forall s :: s in deleteSlots ==> 0 <= s {
      TopIsWanted(replicas, deleteSlots);
    }
  }

  method GetMinPodOrdinal(replicas: int32, deleteSlots: set<int32>) returns (min: int32)
    ensures MaxCount(replicas, deleteSlots) <= MAX_INT32 ==>
              (forall k :: k in PodOrdinals(replicas, deleteSlots) ==> min <= k)
              && (min in PodOrdinals(replicas, deleteSlots)
                  || (PodOrdinals(replicas, deleteSlots) == {} && min == MAX_INT32))
    ensures MaxCount(replicas, deleteSlots) > MAX_INT32 ==> min == MAX_INT32
  {
    min := MAX_INT32;
    var ordinals := GetPodOrdinals(replicas, deleteSlots);
    var rest := ordinals;
    while rest != {}
      invariant rest <= ordinals
      invariant min in ordinals || min == MAX_INT32
      invariant forall k :: k in ordinals && k !in rest ==> min <= k
      decreases |rest|
    {
      var k := Pick(rest);
      rest := rest - {k};
      if k < min {
        min := k;
      }
    }
    assert forall k :: k in ordinals ==> k <= MAX_INT32;
  }

  // ------------------------------------------------------------------ theorems

  /** Every bound with room to spare is at least the computed bound. */
  lemma LeastRoomy(replicas: int, slots: set<int>, x: int)
    requires x >= replicas + |Below(slots, x)|
    ensures MaxCount(replicas, slots) <= x
    decreases x - replicas
  {
    if !Balanced(replicas, slots, x) {
      SubsetSize(Below(slots, x - 1), Below(slots, x));
      LeastRoomy(replicas, slots, x - 1);
    }
  }

  /** How many ordinals are wanted: one more than asked for each negative slot. */
  lemma WantedSize(replicas: nat, slots: set<int>)
    ensures |PodOrdinals(replicas, slots)| == replicas + |Below(slots, 0)|
  {
    var r := MaxCount(replicas, slots);
    var wanted := PodOrdinals(replicas, slots);
    var low := Below(slots, r);
    var negative := Below(slots, 0);
    var inside := low - negative;
    assert Interval(r) == wanted + inside;
    assert wanted !! inside;
    assert low == negative + inside;
  }

  /** The set wants exactly `replicas` pods if and only if no slot is negative. */
  lemma WantedExactly(replicas: nat, slots: set<int>)
    ensures |PodOrdinals(replicas, slots)| == replicas <==> forall s :: s in slots ==> 0 <= s
  {
    WantedSize(replicas, slots);
    if |PodOrdinals(replicas, slots)| == replicas {
      assert forall s :: s in slots && s < 0 ==> s in Below(slots, 0);
    } else {
      var s :| s in Below(slots, 0);
    }
  }

  /** A slot of -1 adds a replica. */
  lemma NegativeSlotAddsReplica()
    ensures PodOrdinals(1, {-1}) == {0, 1}
  {
    var r := MaxCount(1, {-1});
    assert Below({-1}, 2) == {-1};
    assert Balanced(1, {-1}, 2);
    assert Below({-1}, r) <= {-1};
    SubsetSize(Below({-1}, r), {-1});
    assert r > -1 ==> Below({-1}, r) == {-1};
  }

  /** The wanted ordinals are the smallest naturals outside the slots. */
  lemma WantedSmallest(replicas: nat, slots: set<int>, o: int, n: nat)
    requires o in PodOrdinals(replicas, slots)
    requires n !in slots && n !in PodOrdinals(replicas, slots)
    ensures o < n
  {
  }

  /** With non-negative slots the top of the range is itself wanted. */
  lemma TopIsWanted(replicas: nat, slots: set<int>)
    requires forall s :: s in slots ==> 0 <= s
    ensures MaxCount(replicas, slots) == 0 <==> replicas == 0
    ensures replicas > 0 ==> MaxCount(replicas, slots) - 1 in PodOrdinals(replicas, slots)
    ensures replicas == 0 ==> PodOrdinals(replicas, slots) == {}
  {
    var r := MaxCount(replicas, slots);
    if replicas == 0 {
      assert Below(slots, 0) == {};
      assert Balanced(replicas, slots, 0);
    } else if r - 1 in slots {
      assert Below(slots, r) == Below(slots, r - 1) + {r - 1};
      assert Balanced(replicas, slots, r - 1);
    }
  }

  lemma ScaleInBound(replicas: nat, slots: set<int>, victims: set<int>)
    requires victims <= PodOrdinals(replicas, slots)
    ensures MaxCount(replicas - |victims|, slots + victims) <= MaxCount(replicas, slots)
  {
    var r := MaxCount(replicas, slots);
    assert Below(slots + victims, r) == Below(slots, r) + victims;
    assert Below(slots, r) !! victims;
    assert Balanced(replicas - |victims|, slots + victims, r);
  }

  /** Scaling in at chosen ordinals removes exactly those ordinals. */
  lemma ScaleInExact(replicas: nat, slots: set<int>, victims: set<int>)
    requires forall s :: s in slots ==> 0 <= s
    requires victims <= PodOrdinals(replicas, slots)
    ensures |victims| <= replicas
    ensures PodOrdinals(replicas - |victims|, slots + victims)
            == PodOrdinals(replicas, slots) - victims
  {
    WantedExactly(replicas, slots);
    SubsetSize(victims, PodOrdinals(replicas, slots));
    ScaleInBound(replicas, slots, victims);
    WantedExactly(replicas - |victims|, slots + victims);
    var before := PodOrdinals(replicas, slots) - victims;
    var after := PodOrdinals(replicas - |victims|, slots + victims);
    assert PodOrdinals(replicas, slots) == before + victims;
    assert after <= before;
    SubsetSize(after, before);
  }

  /** Scaling out under fixed slots keeps every ordinal and only adds above them. */
  lemma ScaleOutAbove(replicas: int, more: int, slots: set<int>)
    requires replicas <= more
    ensures PodOrdinals(replicas, slots) <= PodOrdinals(more, slots)
    ensures forall old_, new_ :: old_ in PodOrdinals(replicas, slots)
                              && new_ in PodOrdinals(more, slots) - PodOrdinals(replicas, slots)
                              ==> old_ < new_
  {
    LeastRoomy(replicas, slots, MaxCount(more, slots));
  }

  /** Dropping the unused slots does not change what is wanted now. */
  lemma KeptSlotsSuffice(replicas: int, slots: set<int>)
    ensures MaxCount(replicas, Below(slots, MaxCount(replicas, slots))) == MaxCount(replicas, slots)
    ensures PodOrdinals(replicas, Below(slots, MaxCount(replicas, slots))) == PodOrdinals(replicas, slots)
  {
    var r := MaxCount(replicas, slots);
    var kept := Below(slots, r);
    assert Below(kept, r) == kept;
    forall x | Balanced(replicas, kept, x)
      ensures r <= x
    {
      if x < r {
        assert Below(kept, x) == Below(slots, x);
        assert Balanced(replicas, slots, x);
      }
    }
    assert Balanced(replicas, kept, r);
  }

  /** The in-place helper loses the dropped slots: a later scale-out from the
      mutated set agrees with the original slots exactly when no dropped slot
      lies below the new bound. */
  lemma InPlaceScaleOut(replicas: int, more: int, slots: set<int>)
    requires replicas <= more
    ensures var kept := Below(slots, MaxCount(replicas, slots));
            MaxCount(more, kept) == MaxCount(more, slots)
            <==> forall s :: s in slots && s !in kept ==> MaxCount(more, slots) <= s
  {
    var kept := Below(slots, MaxCount(replicas, slots));
    var r := MaxCount(more, slots);
    SubsetSize(Below(kept, r), Below(slots, r));
    if MaxCount(more, kept) == r {
      assert Below(kept, r) == Below(slots, r);
      assert forall s :: s in slots && s < r ==> s in Below(slots, r);
    }
    if forall s :: s in slots && s !in kept ==> r <= s {
      assert Below(kept, r) == Below(slots, r);
      assert Balanced(more, kept, r);
      var k := MaxCount(more, kept);
      assert k <= r;
      assert Below(kept, k) == Below(slots, k) by {
        forall s | s in slots && s < k ensures s in kept { }
      }
      assert Balanced(more, slots, k);
    }
  }

  /** Scaled to one replica with slot 1 and then to two, the mutated set gives ordinals 0
      and 1 where the original slots ask for 0 and 2. */
  lemma InPlaceScaleOutDiffers()
    ensures Below({1}, MaxCount(1, {1})) == {}
    ensures MaxCount(2, {}) == 2 && MaxCount(2, {1}) == 3
    ensures PodOrdinals(2, {}) == {0, 1} && PodOrdinals(2, {1}) == {0, 2}
  {
    assert Below({1}, 1) == {} && Below({1}, 3) == {1} && Below({1}, 2) == {1};
    assert Balanced(1, {1}, 1) && Balanced(2, {1}, 3) && Balanced(2, {}, 2);
    assert forall x :: Below({}, x) == {};
    LeastRoomy(2, {1}, 3);
    SubsetSize(Below({1}, MaxCount(1, {1})), {1});
    SubsetSize(Below({1}, MaxCount(2, {1})), {1});
  }
}
