/** Emitting a growing list piece by piece. Each longer text has the calls of the shorter one and
    possibly more; a delta emits those beyond the ones already emitted, if it brought a new end
    marker. */
module LfmIncremental {
  /** The calls in a text. */
  type CallsOf<!C> = string -> seq<C>

  /** Whether a text has more end markers than an earlier one. */
  type NewEnd = (string, string) -> bool

  /** The calls of the shorter text, and then more. */
  ghost predicate Extends<C>(known: seq<C>, all: seq<C>) {
    |known| <= |all| && all[..|known|] == known
  }

  /** Calls are never taken back, and a text without a new end marker has no new call. */
  ghost predicate Grows<C>(calls: CallsOf<C>, newEnd: NewEnd) {
    forall text, delta {:trigger calls(text + delta)} ::
      Extends(calls(text), calls(text + delta)) && (newEnd(text, text + delta) || calls(text + delta) == calls(text))
  }

  function Numbered<C>(calls: seq<C>, start: nat): seq<(nat, C)> {
    seq(|calls|, i requires 0 <= i < |calls| => (start + i, calls[i]))
  }

  /** What is emitted when n calls have been already: the others, if an end marker has come in. */
  function Emitted<C>(n: nat, calls: seq<C>, newEnd: bool): seq<(nat, C)> {
    if !newEnd || |calls| <= n then [] else Numbered(calls[n..], n)
  }

  function Stream<C>(calls: CallsOf<C>, newEnd: NewEnd, n: nat, previous: string, deltas: seq<string>): seq<(nat, C)>
    decreases |deltas|
  {
    if deltas == [] then []
    else
      var current := previous + deltas[0];
      var now := Emitted(n, calls(current), newEnd(previous, current));
      now + Stream(calls, newEnd, n + |now|, current, deltas[1..])
  }

  function Joined(deltas: seq<string>): string {
    if deltas == [] then "" else deltas[0] + Joined(deltas[1..])
  }

  lemma NumberedAppend<C>(a: seq<C>, b: seq<C>, start: nat)
    ensures Numbered(a + b, start) == Numbered(a, start) + Numbered(b, start + |a|)
  {}

  lemma SplitCalls<C>(known: seq<C>, now: seq<C>, all: seq<C>)
    requires Extends(known, now) && Extends(now, all)
    ensures Extends(known, all)
    ensures Numbered(all[|known|..], |known|) == Numbered(now[|known|..], |known|) + Numbered(all[|now|..], |now|)
  {
    assert all[..|known|] == now[..|known|];
    assert all[|known|..] == now[|known|..] + all[|now|..];
    NumberedAppend(now[|known|..], all[|now|..], |known|);
  }

  /** One delta emits exactly the calls that it completes. */
  lemma DeltaEmitsTheNewCalls<C>(calls: CallsOf<C>, newEnd: NewEnd, text: string, delta: string)
    requires Grows(calls, newEnd)
    ensures var known, all := calls(text), calls(text + delta);
      Extends(known, all) && Emitted(|known|, all, newEnd(text, text + delta)) == Numbered(all[|known|..], |known|)
  {}

  lemma Regroup<T>(a: seq<T>, b: seq<T>, c: seq<T>)
    ensures a + (b + c) == (a + b) + c
  {}

  /** The stream after one delta that emitted these calls. */
  lemma StreamStep<C>(
      calls: CallsOf<C>, newEnd: NewEnd, text: string, deltas: seq<string>, n: nat, m: nat,
      first: seq<(nat, C)>, rest: seq<(nat, C)>)
    requires deltas != [] && |first| == m - n
    requires first == Emitted(n, calls(text + deltas[0]), newEnd(text, text + deltas[0]))
    requires rest == Stream(calls, newEnd, m, text + deltas[0], deltas[1..])
    ensures Stream(calls, newEnd, n, text, deltas) == first + rest
  {}

  ghost predicate Delivers<C>(calls: CallsOf<C>, newEnd: NewEnd, text: string, deltas: seq<string>, all: seq<C>) {
    Extends(calls(text), all)
    && Stream(calls, newEnd, |calls(text)|, text, deltas) == Numbered(all[|calls(text)|..], |calls(text)|)
  }

  /** From any point of the stream on: exactly the calls that are still to come, numbered on. */
  lemma {:induction false} StreamFrom<C>(calls: CallsOf<C>, newEnd: NewEnd, text: string, deltas: seq<string>)
    requires Grows(calls, newEnd)
    ensures Delivers(calls, newEnd, text, deltas, calls(text + Joined(deltas)))
    decreases |deltas|
  {
    if deltas == [] {
      assert text + Joined(deltas) == text;
    } else {
      assert (text + deltas[0]) + Joined(deltas[1..]) == text + Joined(deltas);
      DeltaEmitsTheNewCalls(calls, newEnd, text, deltas[0]);
      StreamFrom(calls, newEnd, text + deltas[0], deltas[1..]);
      var known, now, all := calls(text), calls(text + deltas[0]), calls(text + Joined(deltas));
      SplitCalls(known, now, all);
      StreamStep(calls, newEnd, text, deltas, |known|, |now|,
        Numbered(now[|known|..], |known|), Numbered(all[|now|..], |now|));
    }
  }
}
