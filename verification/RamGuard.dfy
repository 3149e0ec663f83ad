/** The guard's loop, which drops one model at a time until the rest fit, and the traffic-light
    verdict that is shown to the owner. */
module RamGuard {
  import opened Wrappers
  import opened RamBudget
  import opened RamBudgetLaws

  // ---------------------------------------------------------------- the loop

  method UsedGb(models: seq<string>, floor: Floor, keep: seq<bool>) returns (used: nat)
    requires |keep| == |models|
    ensures used == Sum(floor, Kept(models, keep))
  {
    used := 0;
    for i := 0 to |models|
      invariant used + Sum(floor, Pick(models, keep, true, IndicesFrom(models, i))) == Sum(floor, Kept(models, keep))
    {
      PickCons(models, keep, true, i, IndicesFrom(models, i + 1));
      SumOfPart(models, floor, keep, true, i, Pick(models, keep, true, IndicesFrom(models, i + 1)));
      if keep[i] { used := used + floor(models[i]); }
    }
  }

  /** The first still-kept model of known size, in the given order. */
  method FindVictim(models: seq<string>, floor: Floor, keep: seq<bool>, bySize: seq<nat>) returns (k: Option<nat>)
    requires |keep| == |models| && InRange(bySize, |models|)
    ensures k.Some? ==> k.value < |bySize| && keep[bySize[k.value]] && floor(models[bySize[k.value]]) > 0
    ensures forall l :: 0 <= l < (if k.Some? then k.value else |bySize|) ==>
      !(keep[bySize[l]] && floor(models[bySize[l]]) > 0)
  {
    for l := 0 to |bySize|
      invariant forall m :: 0 <= m < l ==> !(keep[bySize[m]] && floor(models[bySize[m]]) > 0)
    {
      if keep[bySize[l]] && floor(models[bySize[l]]) > 0 { return Some(l); }
    }
    return None;
  }

  lemma Regroup(a: seq<string>, b: seq<string>, c: seq<string>)
    ensures a + (b + c) == (a + b) + c && a + [] == a
  {}

  method SplitByChoice(models: seq<string>, keep: seq<bool>) returns (kept: seq<string>, dropped: seq<string>)
    requires |keep| == |models|
    ensures kept == Kept(models, keep) && dropped == Dropped(models, keep)
  {
    kept, dropped := [], [];
    for i := 0 to |models|
      invariant kept + Pick(models, keep, true, IndicesFrom(models, i)) == Kept(models, keep)
      invariant dropped + Pick(models, keep, false, IndicesFrom(models, i)) == Dropped(models, keep)
    {
      PickCons(models, keep, true, i, IndicesFrom(models, i + 1));
      PickCons(models, keep, false, i, IndicesFrom(models, i + 1));
      Regroup(kept, Part(models, keep, true, i), Pick(models, keep, true, IndicesFrom(models, i + 1)));
      Regroup(dropped, Part(models, keep, false, i), Pick(models, keep, false, IndicesFrom(models, i + 1)));
      if keep[i] { kept := kept + [models[i]]; } else { dropped := dropped + [models[i]]; }
    }
  }

  lemma AllKept(models: seq<string>, order: seq<nat>)
    ensures KeepAfter(models, order, 0) == seq(|models|, i => true)
  {}

  lemma {:induction false} NothingLeft(floor: Floor, names: seq<string>)
    requires forall k :: 0 <= k < |names| ==> floor(names[k]) == 0
    ensures Sum(floor, names) == 0
  {
    if names != [] { NothingLeft(floor, names[1..]); }
  }

  /** While the kept models do not fit, the next victim is the next one in the order. */
  lemma NextVictim(models: seq<string>, floor: Floor, d: nat)
    requires d <= |models|
    ensures Sum(floor, Kept(models, KeepAfter(models, Order(models, floor), d))) ==
            Sum(floor, BySize(models, floor)[d..])
    ensures Sum(floor, BySize(models, floor)[d..]) > 0 ==> d < |models| && floor(BySize(models, floor)[d]) > 0
    ensures Cut(models, Order(models, floor), KeepAfter(models, Order(models, floor), d), d)
  {
    var order, names := Order(models, floor), BySize(models, floor);
    var keep := KeepAfter(models, order, d);
    OrderIsAPermutation(models, floor);
    KeepAfterCuts(models, order, d);
    PickOfCut(models, order, keep, d);
    SumOfKept(models, floor, keep);
    BySizeIsNonIncreasing(models, floor);
    if d < |models| && floor(names[d]) == 0 {
      forall k | 0 <= k < |names[d..]| ensures floor(names[d..][k]) == 0 {
        if k > 0 { assert floor(names[d]) >= floor(names[d + k]); }
      }
      NothingLeft(floor, names[d..]);
    }
  }

  lemma DropOne(models: seq<string>, floor: Floor, d: nat)
    requires d < |models|
    ensures KeepAfter(models, Order(models, floor), d + 1) ==
      KeepAfter(models, Order(models, floor), d)[Order(models, floor)[d] := false]
  {
    var order := Order(models, floor);
    assert order[..d + 1] == order[..d] + [order[d]];
  }

  method FitWithinBudget(models: seq<string>, floor: Floor, ram: nat) returns (kept: seq<string>, dropped: seq<string>)
    ensures kept == Kept(models, Fitted(models, floor, ram))
    ensures dropped == Dropped(models, Fitted(models, floor, ram))
  {
    var bySize := Order(models, floor);
    var keep := new bool[|models|](_ => true);
    ghost var d := 0;
    AllKept(models, bySize);
    assert keep[..] == KeepAfter(models, bySize, 0);
    while true
      invariant d <= |models| && keep[..] == KeepAfter(models, bySize, d)
      invariant forall e :: 0 <= e < d ==> Sum(floor, BySize(models, floor)[e..]) > ram
      decreases |models| - d
    {
      NextVictim(models, floor, d);
      var used := UsedGb(models, floor, keep[..]);
      if used <= ram { break; }
      var victim := FindVictim(models, floor, keep[..], bySize);
      // Only models of unknown size left: impossible while the sum exceeds the budget.
      assert keep[..][bySize[d]];
      if victim.None? { assert false; break; }
      assert victim.value == d;
      DropOne(models, floor, d);
      keep[bySize[victim.value]] := false;
      d := d + 1;
    }
    assert d == Count(models, floor, ram);
    kept, dropped := SplitByChoice(models, keep[..]);
  }

  // ---------------------------------------------------------------- the verdict

  /** A fifth of the RAM, rounded up, between 2 and 12 GB. */
  function UserReserveGb(total: nat): nat {
    var fifth := (total + 4) / 5;
    if fifth < 2 then 2 else if fifth > 12 then 12 else fifth
  }

  datatype BudgetStatus = Comfortable | Tight | Oversubscribed

  datatype Report = Report(usedGb: nat, reserveGb: nat, totalGb: nat, status: BudgetStatus, dropped: seq<string>)

  function Verdict(used: nat, total: nat): BudgetStatus {
    if used > total then Oversubscribed
    else if used + UserReserveGb(total) > total then Tight
    else Comfortable
  }

  function Severity(s: BudgetStatus): nat {
    match s
    case Comfortable => 0
    case Tight => 1
    case Oversubscribed => 2
  }

  method BudgetReport(models: seq<string>, floor: Floor, total: nat) returns (r: Report)
    ensures r.usedGb == Sum(floor, models) && r.totalGb == total && r.reserveGb == UserReserveGb(total)
    ensures r.status == Verdict(r.usedGb, total)
    ensures r.dropped == Dropped(models, Fitted(models, floor, total))
  {
    var used := UsedGb(models, floor, seq(|models|, i => true));
    KeepAll(models, floor);
    var reserve := UserReserveGb(total);
    if used > total {
      var kept, dropped := FitWithinBudget(models, floor, total);
      r := Report(used, reserve, total, Oversubscribed, dropped);
    } else {
      NothingToDrop(models, floor, total);
      r := Report(used, reserve, total, if used + reserve > total then Tight else Comfortable, []);
    }
  }

  lemma KeepAll(models: seq<string>, floor: Floor)
    ensures Kept(models, seq(|models|, i => true)) == models
    ensures Sum(floor, BySize(models, floor)) == Sum(floor, models)
  {
    var order := Order(models, floor);
    var all := seq(|models|, i => true);
    IndicesAreDistinct(models, 0);
    PickOfCut(models, IndicesFrom(models, 0), all, 0);
    assert Names(models, IndicesFrom(models, 0)) == models;
    AllKept(models, order);
    NextVictim(models, floor, 0);
    assert BySize(models, floor)[0..] == BySize(models, floor);
  }

  lemma NothingToDrop(models: seq<string>, floor: Floor, ram: nat)
    requires Sum(floor, models) <= ram
    ensures Dropped(models, Fitted(models, floor, ram)) == []
  {
    KeepAll(models, floor);
    assert BySize(models, floor)[0..] == BySize(models, floor);
    FittedCuts(models, floor, ram);
    BagOfChoice(models, floor, Fitted(models, floor, ram));
    assert Count(models, floor, ram) == 0;
  }

  /** Models are dropped exactly when the verdict is the worst one. */
  lemma DroppedIffOversubscribed(models: seq<string>, floor: Floor, total: nat)
    ensures Verdict(Sum(floor, models), total) == Oversubscribed <==>
      Dropped(models, Fitted(models, floor, total)) != []
  {
    if Sum(floor, models) <= total {
      NothingToDrop(models, floor, total);
    } else {
      KeepAll(models, floor);
      assert BySize(models, floor)[0..] == BySize(models, floor);
      FittedCuts(models, floor, total);
      BagOfChoice(models, floor, Fitted(models, floor, total));
    }
  }

  /** More RAM never makes the verdict worse, and a smaller set never does. */
  lemma VerdictIsMonotone(used: nat, less: nat, total: nat, more: nat)
    requires less <= used && total <= more
    ensures Severity(Verdict(less, more)) <= Severity(Verdict(used, total))
  {}

  /** A fifth of the RAM is held back, rounded up to whole GB, but at least 2 and at most 12. */
  lemma ReserveIsAFifth(total: nat)
    ensures var r := UserReserveGb(total);
      && 2 <= r <= 12
      && (r > 2 ==> 5 * (r - 1) < total)
      && (r < 12 ==> total <= 5 * r)
  {}

  /** What the three verdicts mean: the set does not fit; it fits but leaves less than the reserve; or the
      reserve is left. */
  lemma VerdictMeans(used: nat, total: nat)
    ensures Verdict(used, total) == Oversubscribed <==> used > total
    ensures Verdict(used, total) == Tight <==> used <= total && total - used < UserReserveGb(total)
    ensures Verdict(used, total) == Comfortable <==> used + UserReserveGb(total) <= total
  {}
}
