/** The control blocks in a model's output: a start marker, the shortest text up to an end marker,
    and the end marker. Completed blocks never change as the output grows, and every new one brings
    a new end marker. */
module LfmBlocks {
  import opened Wrappers

  const START: string := "<|tool_call_start|>"
  const END: string := "<|tool_call_end|>"

  predicate At(text: string, i: nat, needle: string) {
    i + |needle| <= |text| && text[i..i + |needle|] == needle
  }

  /** The first occurrence at or after a position. */
  function Find(text: string, needle: string, from: nat): (r: Option<nat>)
    ensures r.Some? ==> from <= r.value && r.value + |needle| <= |text|
    decreases |text| - from
  {
    if from > |text| then None
    else if At(text, from, needle) then Some(from)
    else if from == |text| then None
    else Find(text, needle, from + 1)
  }

  /** What is found is an occurrence, and none is before it; nothing is found when there is none. */
  lemma {:induction false} FindMeans(text: string, needle: string, from: nat)
    ensures var r := Find(text, needle, from);
      && (r.Some? ==> At(text, r.value, needle))
      && (r.Some? ==> forall j :: from <= j < r.value ==> !At(text, j, needle))
      && (r.None? ==> forall j :: from <= j ==> !At(text, j, needle))
    decreases |text| - from
  {
    if from < |text| { FindMeans(text, needle, from + 1); }
  }

  /** A completed block: where it is, and the text between its markers. */
  datatype Match = Match(start: nat, end: nat, inner: string)

  /** The first completed block at or after a position. */
  function NextBlock(text: string, from: nat): (r: Option<Match>)
    ensures r.Some? ==> from <= r.value.start && r.value.start + |START| + |END| <= r.value.end <= |text|
  {
    match Find(text, START, from)
    case None => None
    case Some(start) =>
      match Find(text, END, start + |START|)
      case None => None
      case Some(close) => Some(Match(start, close + |END|, text[start + |START|..close]))
  }

  function Blocks(text: string, from: nat): seq<Match>
    decreases |text| - from
  {
    match NextBlock(text, from)
    case None => []
    case Some(m) => [m] + Blocks(text, m.end)
  }

  lemma FoundAt(text: string, needle: string, from: nat, i: nat)
    requires from <= i && At(text, i, needle) && forall j :: from <= j < i ==> !At(text, j, needle)
    ensures Find(text, needle, from) == Some(i)
  {
    FindMeans(text, needle, from);
  }

  lemma FoundBetween(a: string, needle: string, c: string, from: nat)
    requires from <= |a| && forall j :: from <= j < |a| ==> !At(a + needle + c, j, needle)
    ensures Find(a + needle + c, needle, from) == Some(|a|)
  {
    assert (a + needle + c)[|a|..|a| + |needle|] == needle;
    FoundAt(a + needle + c, needle, from, |a|);
  }

  lemma InnerBetween(before: string, start: string, inner: string, end: string, after: string)
    ensures (before + start + inner + end + after)[|before| + |start|..|before| + |start| + |inner|] == inner
  {}

  lemma FoundTwice(before: string, start: string, inner: string, end: string, after: string)
    requires var text := before + start + inner + end + after;
      && (forall j :: 0 <= j < |before| ==> !At(text, j, start))
      && (forall j :: |before| + |start| <= j < |before| + |start| + |inner| ==> !At(text, j, end))
    ensures var text := before + start + inner + end + after;
      && Find(text, start, 0) == Some(|before|)
      && Find(text, end, |before| + |start|) == Some(|before| + |start| + |inner|)
  {
    assert before + start + inner + end + after == before + start + (inner + end + after);
    FoundBetween(before, start, inner + end + after, 0);
    FoundBetween(before + start + inner, end, after, |before| + |start|);
  }

  /** Between the first start marker and the first end marker behind it stands the text of a block. */
  lemma BlockIsFound(text: string, before: string, inner: string, after: string)
    requires text == before + "<|tool_call_start|>" + inner + "<|tool_call_end|>" + after
    requires forall j :: 0 <= j < |before| ==> !At(text, j, "<|tool_call_start|>")
    requires forall j :: |before| + 19 <= j < |before| + 19 + |inner| ==> !At(text, j, "<|tool_call_end|>")
    ensures NextBlock(text, 0) == Some(Match(|before|, |before| + 19 + |inner| + 17, inner))
  {
    FoundTwice(before, START, inner, END, after);
    InnerBetween(before, START, inner, END, after);
  }

  lemma NextMeans(text: string, from: nat)
    requires NextBlock(text, from).Some?
    ensures var m := NextBlock(text, from).value; At(text, m.start, START) && At(text, m.end - |END|, END)
  {
    FindMeans(text, START, from);
    FindMeans(text, END, Find(text, START, from).value + |START|);
  }

  lemma {:induction false} BlocksAreInside(text: string, from: nat)
    ensures forall m :: m in Blocks(text, from) ==>
      from <= m.start && m.start + |START| + |END| <= m.end <= |text| && At(text, m.end - |END|, END)
    decreases |text| - from
  {
    if NextBlock(text, from).Some? {
      NextMeans(text, from);
      BlocksAreInside(text, NextBlock(text, from).value.end);
    }
  }

  // ---------------------------------------------------------------- blocks are stable

  lemma AtIsStable(text: string, more: string, needle: string, i: nat)
    ensures i + |needle| <= |text| ==> At(text + more, i, needle) == At(text, i, needle)
  {
    if i + |needle| <= |text| { assert (text + more)[i..i + |needle|] == text[i..i + |needle|]; }
  }

  lemma SliceIsStable(text: string, more: string, from: nat, to: nat)
    requires from <= to <= |text|
    ensures (text + more)[from..to] == text[from..to]
  {}

  lemma FindIsStable(text: string, more: string, needle: string, from: nat)
    requires Find(text, needle, from).Some?
    ensures Find(text + more, needle, from) == Find(text, needle, from)
  {
    var i := Find(text, needle, from).value;
    FindMeans(text, needle, from);
    FindMeans(text + more, needle, from);
    AtIsStable(text, more, needle, i);
    forall j | from <= j < i ensures !At(text + more, j, needle) { AtIsStable(text, more, needle, j); }
  }

  lemma NextIsStable(text: string, more: string, from: nat)
    requires NextBlock(text, from).Some?
    ensures NextBlock(text + more, from) == NextBlock(text, from)
  {
    FindIsStable(text, more, START, from);
    var start := Find(text, START, from).value;
    FindIsStable(text, more, END, start + |START|);
    var close := Find(text, END, start + |START|).value;
    SliceIsStable(text, more, start + |START|, close);
  }

  /** A block that is complete within the shorter text would have been found there. */
  lemma NewBlockEndsLater(text: string, more: string, from: nat)
    requires NextBlock(text, from).None? && NextBlock(text + more, from).Some?
    ensures NextBlock(text + more, from).value.end > |text|
  {
    var m := NextBlock(text + more, from).value;
    NextMeans(text + more, from);
    if m.end <= |text| {
      AtIsStable(text, more, START, m.start);
      AtIsStable(text, more, END, m.end - |END|);
      FindMeans(text, START, from);
      FindIsStable(text, more, START, from);
      FindMeans(text, END, m.start + |START|);
    }
  }

  /** The completed blocks of a text stay the first blocks of every longer text, and the others end
      beyond it. */
  lemma {:induction false} BlocksAreStable(text: string, more: string, from: nat)
    ensures |Blocks(text, from)| <= |Blocks(text + more, from)|
    ensures Blocks(text + more, from)[..|Blocks(text, from)|] == Blocks(text, from)
    ensures forall k :: |Blocks(text, from)| <= k < |Blocks(text + more, from)| ==>
      Blocks(text + more, from)[k].end > |text|
    decreases |text| - from
  {
    if NextBlock(text, from).Some? {
      NextIsStable(text, more, from);
      BlocksAreStable(text, more, NextBlock(text, from).value.end);
    } else if NextBlock(text + more, from).Some? {
      NewBlockEndsLater(text, more, from);
      BlocksAreInside(text + more, NextBlock(text + more, from).value.end);
    }
  }

  // ---------------------------------------------------------------- counting end markers

  /** Non-overlapping occurrences of the end marker, left to right. */
  function Count(text: string, from: nat): nat
    decreases |text| - from
  {
    if from + |END| > |text| then 0
    else if At(text, from, END) then 1 + Count(text, from + |END|)
    else Count(text, from + 1)
  }

  lemma CharsAt(text: string, i: nat, needle: string)
    requires At(text, i, needle)
    ensures forall p :: i <= p < i + |needle| ==> text[p] == needle[p - i]
  {
    forall p | i <= p < i + |needle| ensures text[p] == needle[p - i] {
      assert text[i..i + |needle|][p - i] == text[p];
    }
  }

  lemma EndBeginsOnce()
    ensures forall k :: 0 < k < |END| ==> END[k] != END[0]
  {}

  /** An end marker cannot begin inside another one. */
  lemma EndsDoNotOverlap(text: string, i: nat, j: nat)
    requires At(text, i, END) && At(text, j, END) && i < j
    ensures i + |END| <= j
  {
    CharsAt(text, i, END);
    CharsAt(text, j, END);
    assert text[j] == END[0];
    EndBeginsOnce();
  }

  lemma {:induction false} CountSkips(text: string, i: nat, j: nat)
    requires At(text, i, END) && i < j <= i + |END|
    ensures Count(text, j) == Count(text, i + |END|)
    decreases i + |END| - j
  {
    if j < i + |END| {
      if At(text, j, END) { EndsDoNotOverlap(text, i, j); }
      CountSkips(text, i, j + 1);
    }
  }

  lemma CountStep(text: string, i: nat)
    ensures Count(text, i) == (if At(text, i, END) then 1 else 0) + Count(text, i + 1)
  {
    if At(text, i, END) { CountSkips(text, i, i + 1); }
  }

  /** A longer text has at least as many end markers, and more if one of them ends beyond the shorter. */
  lemma {:induction false} CountGrows(text: string, more: string, from: nat, q: Option<nat>)
    requires q.Some? ==> from <= q.value && At(text + more, q.value, END) && q.value + |END| > |text|
    ensures Count(text + more, from) >= Count(text, from) + if q.Some? then 1 else 0
    decreases |text| + |more| - from
  {
    CountStep(text, from);
    CountStep(text + more, from);
    if from + |END| <= |text| { AtIsStable(text, more, END, from); }
    if from < |text| + |more| {
      CountGrows(text, more, from + 1, if q == Some(from) then None else q);
    }
  }

  lemma BlockBringsAnEnd(text: string, more: string, m: Match)
    requires m in Blocks(text + more, 0) && m.end > |text|
    ensures Count(text + more, 0) > Count(text, 0)
  {
    BlocksAreInside(text + more, 0);
    CountGrows(text, more, 0, Some(m.end - |END|));
  }

  /** When the end markers have not become more, neither have the blocks. */
  lemma NoNewEndNoNewBlock(text: string, more: string)
    requires Count(text + more, 0) <= Count(text, 0)
    ensures Blocks(text + more, 0) == Blocks(text, 0)
  {
    BlocksAreStable(text, more, 0);
    var known, all := Blocks(text, 0), Blocks(text + more, 0);
    if |known| < |all| { BlockBringsAnEnd(text, more, all[|known|]); }
    assert all[..|all|] == all;
  }
}
