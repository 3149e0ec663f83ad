/** The overprovisioning guard fits the machine, drops as few models as any choice could, drops the
    largest and never one of unknown size, and does not depend on the order of the configuration. */
module RamBudgetLaws {
  import opened CanonicalJson
  import opened RamBudget

  // ---------------------------------------------------------------- sums

  lemma {:induction false} SumAppend(floor: Floor, a: seq<string>, b: seq<string>)
    ensures Sum(floor, a + b) == Sum(floor, a) + Sum(floor, b)
  {
    if a == [] {
      assert a + b == b;
    } else {
      assert (a + b)[1..] == a[1..] + b;
      SumAppend(floor, a[1..], b);
    }
  }

  lemma SumSplit(floor: Floor, names: seq<string>, d: nat)
    requires d <= |names|
    ensures Sum(floor, names) == Sum(floor, names[..d]) + Sum(floor, names[d..])
  {
    assert names == names[..d] + names[d..];
    SumAppend(floor, names[..d], names[d..]);
  }

  /** The catalog's largest floor is 256 GB, so the 32-bit sums of the code are exact for any
      configuration of fewer than 2^24 models. */
  lemma {:induction false} SumFitsU32(floor: Floor, models: seq<string>)
    requires |models| < 0x100_0000 && forall m :: m in models ==> floor(m) <= 256
    ensures Sum(floor, models) <= 256 * |models| < 0x1_0000_0000
  {
    if models != [] { SumFitsU32(floor, models[1..]); }
  }

  // ---------------------------------------------------------------- the order by size

  /** The order never puts a smaller floor before a larger one. */
  ghost predicate Respects(before: Before, floor: Floor) {
    forall a, b {:trigger before(a, b)} ::
      (before(a, b) ==> floor(a) >= floor(b)) && (!before(a, b) ==> floor(b) >= floor(a))
  }

  lemma LargerFirstRespects(floor: Floor)
    ensures Respects(LargerFirst(floor), floor)
  {}

  ghost predicate NonIncreasing(floor: Floor, names: seq<string>) {
    forall k, l :: 0 <= k < l < |names| ==> floor(names[k]) >= floor(names[l])
  }

  ghost predicate UpTo(models: seq<string>, floor: Floor, order: seq<nat>, bound: nat)
    requires InRange(order, |models|)
  {
    forall k :: 0 <= k < |order| ==> floor(models[order[k]]) <= bound
  }

  lemma {:induction false} InsertKeepsFloors(
      models: seq<string>, before: Before, floor: Floor, i: nat, order: seq<nat>, bound: nat)
    requires i < |models| && InRange(order, |models|) && Respects(before, floor)
    requires NonIncreasing(floor, Names(models, order))
    requires floor(models[i]) <= bound && UpTo(models, floor, order, bound)
    ensures NonIncreasing(floor, Names(models, InsertIndex(models, before, i, order)))
    ensures UpTo(models, floor, InsertIndex(models, before, i, order), bound)
  {
    if order != [] && before(models[order[0]], models[i]) {
      var head, tail := floor(models[order[0]]), order[1..];
      assert Names(models, tail) == Names(models, order)[1..];
      forall k | 0 <= k < |tail| ensures floor(models[tail[k]]) <= head {
        assert Names(models, order)[k + 1] == models[tail[k]];
        assert floor(Names(models, order)[0]) >= floor(Names(models, order)[k + 1]);
      }
      InsertKeepsFloors(models, before, floor, i, tail, head);
    } else if order != [] {
      forall k | 0 <= k < |order| ensures floor(models[i]) >= floor(models[order[k]]) {
        if k > 0 { assert floor(Names(models, order)[0]) >= floor(Names(models, order)[k]); }
      }
    }
  }

  lemma {:induction false} SortedFloors(
      models: seq<string>, before: Before, floor: Floor, listing: seq<nat>, bound: nat)
    requires InRange(listing, |models|) && Respects(before, floor)
    requires UpTo(models, floor, listing, bound)
    ensures NonIncreasing(floor, Names(models, SortedIndices(models, before, listing)))
    ensures UpTo(models, floor, SortedIndices(models, before, listing), bound)
  {
    if listing != [] {
      SortedFloors(models, before, floor, listing[1..], bound);
      var rest := SortedIndices(models, before, listing[1..]);
      InsertKeepsFloors(models, before, floor, listing[0], rest, bound);
    }
  }

  lemma {:induction false} FloorsAreBounded(floor: Floor, models: seq<string>)
    ensures forall k :: 0 <= k < |models| ==> floor(models[k]) <= Sum(floor, models)
  {
    if models != [] {
      FloorsAreBounded(floor, models[1..]);
      forall k | 0 <= k < |models| ensures floor(models[k]) <= Sum(floor, models) {
        if k > 0 { assert models[1..][k - 1] == models[k]; }
      }
    }
  }

  lemma BySizeIsNonIncreasing(models: seq<string>, floor: Floor)
    ensures NonIncreasing(floor, BySize(models, floor))
  {
    LargerFirstRespects(floor);
    FloorsAreBounded(floor, models);
    SortedFloors(models, LargerFirst(floor), floor, IndicesFrom(models, 0), Sum(floor, models));
  }

  // ---------------------------------------------------------------- the order lists every index once

  ghost predicate Distinct(order: seq<nat>) {
    forall k, l :: 0 <= k < l < |order| ==> order[k] != order[l]
  }

  lemma {:induction false} InsertMembers(models: seq<string>, before: Before, i: nat, order: seq<nat>, j: nat)
    requires i < |models| && InRange(order, |models|)
    ensures j in InsertIndex(models, before, i, order) <==> j == i || j in order
  {
    if order != [] && before(models[order[0]], models[i]) {
      InsertMembers(models, before, i, order[1..], j);
      assert j in order <==> j == order[0] || j in order[1..];
    }
  }

  lemma {:induction false} InsertDistinct(models: seq<string>, before: Before, i: nat, order: seq<nat>)
    requires i < |models| && InRange(order, |models|) && Distinct(order) && i !in order
    ensures Distinct(InsertIndex(models, before, i, order))
  {
    if order != [] && before(models[order[0]], models[i]) {
      InsertDistinct(models, before, i, order[1..]);
      assert order[0] !in order[1..];
      InsertMembers(models, before, i, order[1..], order[0]);
    }
  }

  lemma {:induction false} SortedDistinct(models: seq<string>, before: Before, listing: seq<nat>)
    requires InRange(listing, |models|) && Distinct(listing)
    ensures Distinct(SortedIndices(models, before, listing))
    ensures forall j: nat :: j in SortedIndices(models, before, listing) <==> j in listing
  {
    if listing != [] {
      var rest := SortedIndices(models, before, listing[1..]);
      SortedDistinct(models, before, listing[1..]);
      assert listing[0] !in listing[1..];
      InsertDistinct(models, before, listing[0], rest);
      forall j: nat ensures j in SortedIndices(models, before, listing) <==> j in listing {
        InsertMembers(models, before, listing[0], rest, j);
        assert j in listing <==> j == listing[0] || j in listing[1..];
      }
    }
  }

  lemma {:induction false} IndicesAreDistinct(models: seq<string>, i: nat)
    requires i <= |models|
    ensures forall k :: 0 <= k < |models| - i ==> IndicesFrom(models, i)[k] == i + k
    ensures Distinct(IndicesFrom(models, i))
    decreases |models| - i
  {
    if i < |models| { IndicesAreDistinct(models, i + 1); }
  }

  lemma OrderIsAPermutation(models: seq<string>, floor: Floor)
    ensures Distinct(Order(models, floor))
    ensures forall j: nat :: j < |models| ==> j in Order(models, floor)
  {
    IndicesAreDistinct(models, 0);
    SortedDistinct(models, LargerFirst(floor), IndicesFrom(models, 0));
    forall j: nat | j < |models| ensures j in Order(models, floor) {
      assert IndicesFrom(models, 0)[j] == j;
    }
  }

  // ---------------------------------------------------------------- what the fitted choice keeps and drops

  predicate Cut(models: seq<string>, order: seq<nat>, keep: seq<bool>, d: nat)
    requires InRange(order, |models|) && |keep| == |models| && d <= |order|
  {
    forall k :: 0 <= k < |order| ==> keep[order[k]] == (k >= d)
  }

  lemma KeepAfterCuts(models: seq<string>, order: seq<nat>, d: nat)
    requires InRange(order, |models|) && Distinct(order) && d <= |order|
    ensures Cut(models, order, KeepAfter(models, order, d), d)
  {
    forall k | 0 <= k < |order| ensures order[k] !in order[..d] <==> k >= d {
      if k < d { assert order[..d][k] == order[k]; }
      if order[k] in order[..d] {
        var l :| 0 <= l < d && order[..d][l] == order[k];
        assert order[l] == order[k];
      }
    }
  }

  /** A cut keeps the names behind it and drops those before it. */
  lemma {:induction false} PickOfCut(models: seq<string>, order: seq<nat>, keep: seq<bool>, d: nat)
    requires InRange(order, |models|) && |keep| == |models| && d <= |order| && Cut(models, order, keep, d)
    ensures Pick(models, keep, true, order) == Names(models, order)[d..]
    ensures Pick(models, keep, false, order) == Names(models, order)[..d]
  {
    if order != [] {
      var e := if d > 0 then d - 1 else 0;
      forall k | 0 <= k < |order| - 1 ensures keep[order[1..][k]] == (k >= e) {
        assert order[1..][k] == order[k + 1];
      }
      PickOfCut(models, order[1..], keep, e);
      assert Names(models, order) == [models[order[0]]] + Names(models, order[1..]);
      assert keep[order[0]] == (0 >= d);
    }
  }

  function Count(models: seq<string>, floor: Floor, ram: nat): nat {
    DropCount(floor, BySize(models, floor), ram, 0)
  }

  lemma FittedCuts(models: seq<string>, floor: Floor, ram: nat)
    ensures var order := Order(models, floor); var d := Count(models, floor, ram);
      && Cut(models, order, Fitted(models, floor, ram), d)
      && Pick(models, Fitted(models, floor, ram), true, order) == BySize(models, floor)[d..]
      && Pick(models, Fitted(models, floor, ram), false, order) == BySize(models, floor)[..d]
  {
    var order := Order(models, floor);
    OrderIsAPermutation(models, floor);
    KeepAfterCuts(models, order, Count(models, floor, ram));
    PickOfCut(models, order, Fitted(models, floor, ram), Count(models, floor, ram));
  }

  lemma SumOfKept(models: seq<string>, floor: Floor, keep: seq<bool>)
    requires |keep| == |models|
    ensures Sum(floor, Pick(models, keep, true, Order(models, floor))) == Sum(floor, Kept(models, keep))
  {
    SumInAnyOrder(models, LargerFirst(floor), floor, keep, true, IndicesFrom(models, 0));
  }

  lemma BagOfChoice(models: seq<string>, floor: Floor, keep: seq<bool>)
    requires |keep| == |models|
    ensures multiset(Pick(models, keep, true, Order(models, floor))) == multiset(Kept(models, keep))
    ensures multiset(Pick(models, keep, false, Order(models, floor))) == multiset(Dropped(models, keep))
    ensures |Pick(models, keep, false, Order(models, floor))| == |Dropped(models, keep)|
  {
    BagInAnyOrder(models, LargerFirst(floor), keep, true, IndicesFrom(models, 0));
    BagInAnyOrder(models, LargerFirst(floor), keep, false, IndicesFrom(models, 0));
    assert |multiset(Pick(models, keep, false, Order(models, floor)))| == |multiset(Dropped(models, keep))|;
  }

  /** What is kept always fits, whatever the machine. */
  lemma KeptFits(models: seq<string>, floor: Floor, ram: nat)
    ensures Sum(floor, Kept(models, Fitted(models, floor, ram))) <= ram
  {
    FittedCuts(models, floor, ram);
    SumOfKept(models, floor, Fitted(models, floor, ram));
  }

  // ---------------------------------------------------------------- optimality

  lemma ShiftedPrefix(floor: Floor, names: seq<string>, c: nat)
    requires c < |names| && NonIncreasing(floor, names)
    ensures Sum(floor, names[1..][..c]) <= Sum(floor, names[..c])
  {
    var long := names[..c + 1];
    assert long == names[..c] + [names[c]];
    assert long == [names[0]] + names[1..][..c];
    SumAppend(floor, names[..c], [names[c]]);
    SumAppend(floor, [names[0]], names[1..][..c]);
  }

  lemma {:induction false} PickIsShort(models: seq<string>, keep: seq<bool>, want: bool, order: seq<nat>)
    requires |keep| == |models| && InRange(order, |models|)
    ensures |Pick(models, keep, want, order)| <= |order|
  {
    if order != [] { PickIsShort(models, keep, want, order[1..]); }
  }

  /** No c models weigh more than the c largest. */
  lemma {:induction false} LargestWeighMost(models: seq<string>, floor: Floor, keep: seq<bool>, order: seq<nat>)
    requires |keep| == |models| && InRange(order, |models|) && NonIncreasing(floor, Names(models, order))
    ensures |Pick(models, keep, false, order)| <= |order|
    ensures var picked := Pick(models, keep, false, order);
      Sum(floor, picked) <= Sum(floor, Names(models, order)[..|picked|])
  {
    PickIsShort(models, keep, false, order);
    if order != [] {
      var names, tail := Names(models, order), order[1..];
      var picked := Pick(models, keep, false, tail);
      assert names == [models[order[0]]] + Names(models, tail);
      assert names[1..] == Names(models, tail);
      TailFloors(floor, names);
      LargestWeighMost(models, floor, keep, tail);
      if keep[order[0]] {
        assert Pick(models, keep, false, order) == picked;
        ShiftedPrefix(floor, names, |picked|);
      } else {
        HeadWeighs(floor, names, picked);
        assert Pick(models, keep, false, order) == [names[0]] + picked;
      }
    }
  }

  lemma TailFloors(floor: Floor, names: seq<string>)
    requires names != [] && NonIncreasing(floor, names)
    ensures NonIncreasing(floor, names[1..])
  {}

  lemma HeadWeighs(floor: Floor, names: seq<string>, picked: seq<string>)
    requires names != [] && |picked| < |names|
    requires Sum(floor, picked) <= Sum(floor, names[1..][..|picked|])
    ensures Sum(floor, [names[0]] + picked) <= Sum(floor, names[..|picked| + 1])
  {
    assert names[..|picked| + 1] == [names[0]] + names[1..][..|picked|];
    SumAppend(floor, [names[0]], picked);
    SumAppend(floor, [names[0]], names[1..][..|picked|]);
  }

  lemma {:induction false} PickSplitsTheSum(models: seq<string>, floor: Floor, keep: seq<bool>, order: seq<nat>)
    requires |keep| == |models| && InRange(order, |models|)
    ensures Sum(floor, Names(models, order)) ==
      Sum(floor, Pick(models, keep, true, order)) + Sum(floor, Pick(models, keep, false, order))
  {
    if order != [] {
      PickSplitsTheSum(models, floor, keep, order[1..]);
      SumOfPart(models, floor, keep, true, order[0], Pick(models, keep, true, order[1..]));
      SumOfPart(models, floor, keep, false, order[0], Pick(models, keep, false, order[1..]));
      SumAppend(floor, [models[order[0]]], Names(models, order[1..]));
    }
  }

  /** No choice that drops fewer models would fit. */
  lemma FewestDropped(models: seq<string>, floor: Floor, ram: nat, keep: seq<bool>)
    requires |keep| == |models| && Sum(floor, Kept(models, keep)) <= ram
    ensures |Dropped(models, Fitted(models, floor, ram))| <= |Dropped(models, keep)|
  {
    var order, names := Order(models, floor), BySize(models, floor);
    FittedCuts(models, floor, ram);
    BagOfChoice(models, floor, Fitted(models, floor, ram));
    BagOfChoice(models, floor, keep);
    var c := |Pick(models, keep, false, order)|;
    BySizeIsNonIncreasing(models, floor);
    LargestWeighMost(models, floor, keep, order);
    PickSplitsTheSum(models, floor, keep, order);
    SumSplit(floor, names, c);
    SumOfKept(models, floor, keep);
    assert Sum(floor, names[c..]) <= ram;
  }

  // ---------------------------------------------------------------- the largest go first

  lemma InOrder(models: seq<string>, floor: Floor, i: nat) returns (k: nat)
    requires i < |models|
    ensures k < |models| && Order(models, floor)[k] == i
  {
    OrderIsAPermutation(models, floor);
    assert i in Order(models, floor);
    k :| 0 <= k < |Order(models, floor)| && Order(models, floor)[k] == i;
  }

  /** A dropped model is at least as large as every kept one, and its size is known. */
  lemma LargestAreDropped(models: seq<string>, floor: Floor, ram: nat, i: nat, j: nat)
    requires i < |models| && j < |models|
    requires !Fitted(models, floor, ram)[i] && Fitted(models, floor, ram)[j]
    ensures floor(models[i]) >= floor(models[j]) && floor(models[i]) > 0
  {
    FittedCuts(models, floor, ram);
    var k := InOrder(models, floor, i);
    var l := InOrder(models, floor, j);
    BySizeIsNonIncreasing(models, floor);
    BeforeTheCut(floor, BySize(models, floor), ram, k, l);
  }

  lemma BeforeTheCut(floor: Floor, names: seq<string>, ram: nat, k: nat, l: nat)
    requires NonIncreasing(floor, names) && l < |names|
    requires k < DropCount(floor, names, ram, 0) <= l
    ensures floor(names[k]) >= floor(names[l]) && floor(names[k]) > 0
  {
    var d := DropCount(floor, names, ram, 0);
    assert Sum(floor, names[d - 1..]) > ram;
    assert names[d - 1..] == [names[d - 1]] + names[d..];
    SumAppend(floor, [names[d - 1]], names[d..]);
    if k < d - 1 { assert floor(names[k]) >= floor(names[d - 1]); }
  }

  // ---------------------------------------------------------------- more RAM

  lemma {:induction false} DropsNoMore(floor: Floor, names: seq<string>, ram: nat, more: nat, d: nat)
    requires ram <= more && d <= |names|
    ensures DropCount(floor, names, more, d) <= DropCount(floor, names, ram, d)
    decreases |names| - d
  {
    if Sum(floor, names[d..]) > ram {
      if Sum(floor, names[d..]) > more { DropsNoMore(floor, names, ram, more, d + 1); }
    }
  }

  /** With more RAM every model that was kept is still kept. */
  lemma MoreRamKeepsMore(models: seq<string>, floor: Floor, ram: nat, more: nat, i: nat)
    requires ram <= more && i < |models| && Fitted(models, floor, ram)[i]
    ensures Fitted(models, floor, more)[i]
  {
    FittedCuts(models, floor, ram);
    FittedCuts(models, floor, more);
    DropsNoMore(floor, BySize(models, floor), ram, more, 0);
    var k := InOrder(models, floor, i);
  }

  // ---------------------------------------------------------------- the order of the configuration

  ghost predicate StrictTotal(before: Before) {
    && (forall a, b {:trigger before(a, b)} :: before(a, b) ==> !before(b, a))
    && (forall a, b {:trigger before(a, b)} :: before(a, b) || before(b, a) || a == b)
    && (forall a, b, c {:trigger before(a, b), before(b, c)} :: before(a, b) && before(b, c) ==> before(a, c))
  }

  lemma LargerFirstIsStrictTotal(floor: Floor)
    ensures StrictTotal(LargerFirst(floor))
  {
    var before := LargerFirst(floor);
    forall a, b ensures (before(a, b) ==> !before(b, a)) && (before(a, b) || before(b, a) || a == b) {
      KeyLessTotal(a, b);
    }
    forall a, b, c | before(a, b) && before(b, c) ensures before(a, c) {
      if KeyLess(a, b) && KeyLess(b, c) { KeyLessTransitive(a, b, c); }
    }
  }

  ghost predicate InSizeOrder(before: Before, names: seq<string>) {
    forall k, l {:trigger before(names[l], names[k])} :: 0 <= k < l < |names| ==> !before(names[l], names[k])
  }

  function InsertName(before: Before, x: string, names: seq<string>): seq<string> {
    if names != [] && before(names[0], x) then [names[0]] + InsertName(before, x, names[1..]) else [x] + names
  }

  lemma {:induction false} NamesOfInsert(models: seq<string>, before: Before, i: nat, order: seq<nat>)
    requires i < |models| && InRange(order, |models|)
    ensures Names(models, InsertIndex(models, before, i, order)) == InsertName(before, models[i], Names(models, order))
  {
    if order != [] && before(models[order[0]], models[i]) {
      NamesOfInsert(models, before, i, order[1..]);
      assert Names(models, order)[1..] == Names(models, order[1..]);
      assert InsertIndex(models, before, i, order)[1..] == InsertIndex(models, before, i, order[1..]);
    } else {
      assert ([i] + order)[1..] == order;
    }
  }

  lemma {:induction false} InsertNameContents(before: Before, x: string, names: seq<string>)
    ensures multiset(InsertName(before, x, names)) == multiset{x} + multiset(names)
  {
    if names != [] && before(names[0], x) {
      InsertNameContents(before, x, names[1..]);
      assert names == [names[0]] + names[1..];
    }
  }

  /** A head that nothing comes before can be put in front. */
  lemma OrderedCons(before: Before, head: string, tail: seq<string>)
    requires InSizeOrder(before, tail) && forall l :: 0 <= l < |tail| ==> !before(tail[l], head)
    ensures InSizeOrder(before, [head] + tail)
  {
    var s := [head] + tail;
    forall k, l {:trigger before(s[l], s[k])} | 0 <= k < l < |s| ensures !before(s[l], s[k]) {
      assert s[l] == tail[l - 1];
      if k > 0 { assert s[k] == tail[k - 1]; }
    }
  }

  lemma OrderedTail(before: Before, s: seq<string>)
    requires s != [] && InSizeOrder(before, s)
    ensures InSizeOrder(before, s[1..])
    ensures forall l :: 0 <= l < |s| - 1 ==> !before(s[1..][l], s[0])
  {
    var t := s[1..];
    forall k, l {:trigger before(t[l], t[k])} | 0 <= k < l < |t| ensures !before(t[l], t[k]) {
      assert !before(s[l + 1], s[k + 1]);
    }
    forall l | 0 <= l < |t| ensures !before(t[l], s[0]) { assert !before(s[l + 1], s[0]); }
  }

  lemma {:induction false} InsertNameOrders(before: Before, x: string, names: seq<string>)
    requires StrictTotal(before) && InSizeOrder(before, names)
    ensures InSizeOrder(before, InsertName(before, x, names))
  {
    if names == [] {
    } else if before(names[0], x) {
      var rest := InsertName(before, x, names[1..]);
      OrderedTail(before, names);
      InsertNameOrders(before, x, names[1..]);
      InsertNameContents(before, x, names[1..]);
      forall l | 0 <= l < |rest| ensures !before(rest[l], names[0]) {
        assert rest[l] in multiset(rest);
        if rest[l] != x {
          assert rest[l] in names[1..];
          var k :| 0 <= k < |names| - 1 && names[1..][k] == rest[l];
        }
      }
      OrderedCons(before, names[0], rest);
    } else {
      forall l | 0 <= l < |names| ensures !before(names[l], x) {
        if l > 0 { assert !before(names[l], names[0]); }
      }
      OrderedCons(before, x, names);
    }
  }

  lemma {:induction false} SortedNames(models: seq<string>, before: Before, listing: seq<nat>)
    requires InRange(listing, |models|) && StrictTotal(before)
    ensures InSizeOrder(before, Names(models, SortedIndices(models, before, listing)))
    ensures multiset(Names(models, SortedIndices(models, before, listing))) == multiset(Names(models, listing))
  {
    if listing != [] {
      var rest := SortedIndices(models, before, listing[1..]);
      SortedNames(models, before, listing[1..]);
      NamesOfInsert(models, before, listing[0], rest);
      InsertNameOrders(before, models[listing[0]], Names(models, rest));
      InsertNameContents(before, models[listing[0]], Names(models, rest));
    }
  }

  lemma BySizeIsOrdered(models: seq<string>, floor: Floor)
    ensures InSizeOrder(LargerFirst(floor), BySize(models, floor))
    ensures multiset(BySize(models, floor)) == multiset(models)
  {
    LargerFirstIsStrictTotal(floor);
    SortedNames(models, LargerFirst(floor), IndicesFrom(models, 0));
    IndicesAreDistinct(models, 0);
    assert Names(models, IndicesFrom(models, 0)) == models;
  }

  lemma SameLargest(before: Before, a: seq<string>, b: seq<string>)
    requires StrictTotal(before) && InSizeOrder(before, a) && InSizeOrder(before, b)
    requires a != [] && b != [] && multiset(a) == multiset(b)
    ensures a[0] == b[0]
  {
    assert a[0] in multiset(b) && b[0] in multiset(a);
    var k :| 0 <= k < |a| && a[k] == b[0];
    var l :| 0 <= l < |b| && b[l] == a[0];
    if k > 0 && l > 0 {
      assert !before(a[k], a[0]);
      assert !before(b[l], b[0]);
    }
  }

  lemma {:induction false} SizeOrderIsUnique(before: Before, a: seq<string>, b: seq<string>)
    requires StrictTotal(before) && InSizeOrder(before, a) && InSizeOrder(before, b) && multiset(a) == multiset(b)
    ensures a == b
  {
    assert |multiset(a)| == |a| && |multiset(b)| == |b|;
    if a != [] {
      SameLargest(before, a, b);
      OrderedTail(before, a);
      OrderedTail(before, b);
      assert a == [a[0]] + a[1..] && b == [a[0]] + b[1..];
      assert multiset(a[1..]) == multiset(a) - multiset{a[0]};
      assert multiset(b[1..]) == multiset(b) - multiset{a[0]};
      SizeOrderIsUnique(before, a[1..], b[1..]);
    }
  }

  /** Reordering the configuration changes neither what is kept nor what is dropped. */
  lemma ConfigurationOrderIsIrrelevant(a: seq<string>, b: seq<string>, floor: Floor, ram: nat)
    requires multiset(a) == multiset(b)
    ensures multiset(Kept(a, Fitted(a, floor, ram))) == multiset(Kept(b, Fitted(b, floor, ram)))
    ensures multiset(Dropped(a, Fitted(a, floor, ram))) == multiset(Dropped(b, Fitted(b, floor, ram)))
  {
    LargerFirstIsStrictTotal(floor);
    BySizeIsOrdered(a, floor);
    BySizeIsOrdered(b, floor);
    SizeOrderIsUnique(LargerFirst(floor), BySize(a, floor), BySize(b, floor));
    FittedCuts(a, floor, ram);
    FittedCuts(b, floor, ram);
    BagOfChoice(a, floor, Fitted(a, floor, ram));
    BagOfChoice(b, floor, Fitted(b, floor, ram));
  }

  /** Between two models of the same size the one with the smaller id is dropped first. */
  lemma TiesBreakById(models: seq<string>, floor: Floor, ram: nat, i: nat, j: nat)
    requires i < |models| && j < |models| && floor(models[i]) == floor(models[j])
    requires !Fitted(models, floor, ram)[i] && Fitted(models, floor, ram)[j]
    ensures !KeyLess(models[j], models[i])
  {
    FittedCuts(models, floor, ram);
    var k := InOrder(models, floor, i);
    var l := InOrder(models, floor, j);
    BySizeIsOrdered(models, floor);
    assert k < l;
    assert !LargerFirst(floor)(BySize(models, floor)[l], BySize(models, floor)[k]);
  }
}
