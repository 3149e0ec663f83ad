/** The overprovisioning guard: which of the configured models are loaded when their RAM floors do
    not all fit. The largest are dropped first, and no choice that drops fewer models would fit. */
module RamBudget {
  import opened CanonicalJson

  /** The catalog's RAM floor in GB, zero for a model it does not know. */
  type Floor = string -> nat

  // ---------------------------------------------------------------- largest first

  type Before = (string, string) -> bool

  /** Larger floor first, then the smaller id. */
  function LargerFirst(floor: Floor): Before {
    (a, b) => floor(a) > floor(b) || (floor(a) == floor(b) && KeyLess(a, b))
  }

  /** Every entry is an index of the models. */
  ghost predicate InRange(order: seq<nat>, n: nat) {
    forall k :: 0 <= k < |order| ==> order[k] < n
  }

  function InsertIndex(models: seq<string>, before: Before, i: nat, order: seq<nat>): (r: seq<nat>)
    requires i < |models| && InRange(order, |models|)
    ensures InRange(r, |models|) && |r| == |order| + 1
  {
    if order != [] && before(models[order[0]], models[i])
    then [order[0]] + InsertIndex(models, before, i, order[1..])
    else [i] + order
  }

  /** The stable sort of a listing of indices. */
  function SortedIndices(models: seq<string>, before: Before, listing: seq<nat>): (order: seq<nat>)
    requires InRange(listing, |models|)
    ensures InRange(order, |models|) && |order| == |listing|
  {
    if listing == [] then []
    else InsertIndex(models, before, listing[0], SortedIndices(models, before, listing[1..]))
  }

  function Order(models: seq<string>, floor: Floor): (order: seq<nat>)
    ensures InRange(order, |models|) && |order| == |models|
  {
    SortedIndices(models, LargerFirst(floor), IndicesFrom(models, 0))
  }

  function IndicesFrom(models: seq<string>, i: nat): (r: seq<nat>)
    requires i <= |models|
    ensures InRange(r, |models|) && |r| == |models| - i
    decreases |models| - i
  {
    if i == |models| then [] else [i] + IndicesFrom(models, i + 1)
  }

  // ---------------------------------------------------------------- a choice of models

  function Sum(floor: Floor, models: seq<string>): nat {
    if models == [] then 0 else floor(models[0]) + Sum(floor, models[1..])
  }

  function Part(models: seq<string>, keep: seq<bool>, want: bool, i: nat): seq<string>
    requires i < |keep| == |models|
  {
    if keep[i] == want then [models[i]] else []
  }

  /** The models at the given indices that are kept, or those that are dropped. */
  function Pick(models: seq<string>, keep: seq<bool>, want: bool, order: seq<nat>): seq<string>
    requires |keep| == |models| && InRange(order, |models|)
  {
    if order == [] then []
    else Part(models, keep, want, order[0]) + Pick(models, keep, want, order[1..])
  }

  function Kept(models: seq<string>, keep: seq<bool>): seq<string>
    requires |keep| == |models|
  {
    Pick(models, keep, true, IndicesFrom(models, 0))
  }

  function Dropped(models: seq<string>, keep: seq<bool>): seq<string>
    requires |keep| == |models|
  {
    Pick(models, keep, false, IndicesFrom(models, 0))
  }

  /** The choice that drops the first d models of an order. */
  function KeepAfter(models: seq<string>, order: seq<nat>, d: nat): seq<bool>
    requires d <= |order|
  {
    seq(|models|, i => i !in order[..d])
  }

  function Names(models: seq<string>, order: seq<nat>): (names: seq<string>)
    requires InRange(order, |models|)
    ensures |names| == |order|
    ensures forall k :: 0 <= k < |order| ==> names[k] == models[order[k]]
  {
    if order == [] then [] else [models[order[0]]] + Names(models, order[1..])
  }

  function BySize(models: seq<string>, floor: Floor): seq<string> {
    Names(models, Order(models, floor))
  }

  /** How many of the largest models have to go, d of them being gone already. */
  function DropCount(floor: Floor, names: seq<string>, ram: nat, d: nat): (r: nat)
    requires d <= |names|
    ensures d <= r <= |names| && Sum(floor, names[r..]) <= ram
    ensures forall e :: d <= e < r ==> Sum(floor, names[e..]) > ram
    decreases |names| - d
  {
    if Sum(floor, names[d..]) <= ram then d else DropCount(floor, names, ram, d + 1)
  }

  function Fitted(models: seq<string>, floor: Floor, ram: nat): (keep: seq<bool>)
    ensures |keep| == |models|
  {
    KeepAfter(models, Order(models, floor), DropCount(floor, BySize(models, floor), ram, 0))
  }

  // ---------------------------------------------------------------- the order does not matter to a choice

  lemma PickCons(models: seq<string>, keep: seq<bool>, want: bool, i: nat, order: seq<nat>)
    requires |keep| == |models| && i < |models| && InRange(order, |models|)
    ensures Pick(models, keep, want, [i] + order) == Part(models, keep, want, i) + Pick(models, keep, want, order)
  {
    assert ([i] + order)[1..] == order;
  }

  lemma {:induction false} BagOfInsert(
      models: seq<string>, before: Before, keep: seq<bool>, want: bool, i: nat, order: seq<nat>)
    requires |keep| == |models| && i < |models| && InRange(order, |models|)
    ensures multiset(Pick(models, keep, want, InsertIndex(models, before, i, order))) ==
            multiset(Part(models, keep, want, i)) + multiset(Pick(models, keep, want, order))
  {
    if order != [] && before(models[order[0]], models[i]) {
      var tail := order[1..];
      BagOfInsert(models, before, keep, want, i, tail);
      PickCons(models, keep, want, order[0], InsertIndex(models, before, i, tail));
      PickCons(models, keep, want, order[0], tail);
      assert [order[0]] + tail == order;
    } else {
      PickCons(models, keep, want, i, order);
    }
  }

  lemma {:induction false} BagInAnyOrder(
      models: seq<string>, before: Before, keep: seq<bool>, want: bool, listing: seq<nat>)
    requires |keep| == |models| && InRange(listing, |models|)
    ensures multiset(Pick(models, keep, want, SortedIndices(models, before, listing))) ==
            multiset(Pick(models, keep, want, listing))
  {
    if listing != [] {
      BagInAnyOrder(models, before, keep, want, listing[1..]);
      BagOfInsert(models, before, keep, want, listing[0], SortedIndices(models, before, listing[1..]));
    }
  }

  lemma SumOfPart(models: seq<string>, floor: Floor, keep: seq<bool>, want: bool, i: nat, rest: seq<string>)
    requires i < |keep| == |models|
    ensures Sum(floor, Part(models, keep, want, i) + rest) == Sum(floor, Part(models, keep, want, i)) + Sum(floor, rest)
  {
    assert ([models[i]] + rest)[1..] == rest;
    assert [] + rest == rest;
  }

  lemma {:induction false} SumOfInsert(
      models: seq<string>, before: Before, floor: Floor, keep: seq<bool>, want: bool, i: nat, order: seq<nat>)
    requires |keep| == |models| && i < |models| && InRange(order, |models|)
    ensures Sum(floor, Pick(models, keep, want, InsertIndex(models, before, i, order))) ==
            Sum(floor, Part(models, keep, want, i)) + Sum(floor, Pick(models, keep, want, order))
  {
    if order != [] && before(models[order[0]], models[i]) {
      var tail := order[1..];
      SumOfInsert(models, before, floor, keep, want, i, tail);
      PickCons(models, keep, want, order[0], InsertIndex(models, before, i, tail));
      SumOfPart(models, floor, keep, want, order[0], Pick(models, keep, want, InsertIndex(models, before, i, tail)));
      SumOfPart(models, floor, keep, want, order[0], Pick(models, keep, want, tail));
    } else {
      PickCons(models, keep, want, i, order);
      SumOfPart(models, floor, keep, want, i, Pick(models, keep, want, order));
    }
  }

  lemma {:induction false} SumInAnyOrder(
      models: seq<string>, before: Before, floor: Floor, keep: seq<bool>, want: bool, listing: seq<nat>)
    requires |keep| == |models| && InRange(listing, |models|)
    ensures Sum(floor, Pick(models, keep, want, SortedIndices(models, before, listing))) ==
            Sum(floor, Pick(models, keep, want, listing))
  {
    if listing != [] {
      SumInAnyOrder(models, before, floor, keep, want, listing[1..]);
      SumOfInsert(models, before, floor, keep, want, listing[0], SortedIndices(models, before, listing[1..]));
      SumOfPart(models, floor, keep, want, listing[0], Pick(models, keep, want, listing[1..]));
    }
  }
}
