/** Extracting calls from an output that streams in. However the output is cut into deltas, the
    stream emits the calls of the whole output, each once, numbered from zero. What the text of a
    block means is left open. */
module LfmStreaming {
  import opened LfmBlocks
  import opened LfmIncremental

  /** The calls in the text of a block. */
  type Parse<!C> = string -> seq<C>

  // ---------------------------------------------------------------- a whole output

  function CallsIn<C>(parse: Parse<C>, blocks: seq<Match>): seq<C> {
    if blocks == [] then []
    else parse(blocks[0].inner) + CallsIn(parse, blocks[1..])
  }

  function CallsFrom<C>(parse: Parse<C>, text: string, from: nat): seq<C> {
    CallsIn(parse, Blocks(text, from))
  }

  /** A piece of an output: ordinary text, or a completed control block with its markers. */
  datatype Segment<C> = Plain(text: string) | Control(text: string, calls: seq<C>)

  function Segments<C>(parse: Parse<C>, text: string, from: nat): seq<Segment<C>>
    requires from <= |text|
    decreases |text| - from
  {
    match NextBlock(text, from)
    case None => [Plain(text[from..])]
    case Some(m) =>
      [Plain(text[from..m.start]), Control(text[m.start..m.end], parse(m.inner))]
      + Segments(parse, text, m.end)
  }

  function Flatten<C>(segments: seq<Segment<C>>): string {
    if segments == [] then "" else segments[0].text + Flatten(segments[1..])
  }

  /** The content is everything but the blocks that yielded calls. */
  function Content<C>(segments: seq<Segment<C>>): string {
    if segments == [] then ""
    else (if segments[0].Control? && |segments[0].calls| > 0 then "" else segments[0].text) + Content(segments[1..])
  }

  function CallsWithin<C>(segments: seq<Segment<C>>): seq<C> {
    if segments == [] then []
    else (if segments[0].Control? then segments[0].calls else []) + CallsWithin(segments[1..])
  }

  /** The segments make up the output, and hold the calls of its blocks. */
  lemma {:induction false} SegmentsCover<C>(parse: Parse<C>, text: string, from: nat)
    requires from <= |text|
    ensures Flatten(Segments(parse, text, from)) == text[from..]
    ensures CallsWithin(Segments(parse, text, from)) == CallsFrom(parse, text, from)
    decreases |text| - from
  {
    var segments := Segments(parse, text, from);
    if NextBlock(text, from).None? {
      assert segments[1..] == [];
    } else {
      var m := NextBlock(text, from).value;
      var rest := Segments(parse, text, m.end);
      SegmentsCover(parse, text, m.end);
      assert segments == [segments[0], segments[1]] + rest;
      Unfold(segments[0], segments[1], rest);
      assert text[from..] == text[from..m.start] + (text[m.start..m.end] + text[m.end..]);
      assert Blocks(text, from)[1..] == Blocks(text, m.end);
    }
  }

  lemma Unfold<C>(a: Segment<C>, b: Segment<C>, rest: seq<Segment<C>>)
    requires a.Plain? && b.Control?
    ensures Flatten([a, b] + rest) == a.text + (b.text + Flatten(rest))
    ensures CallsWithin([a, b] + rest) == b.calls + CallsWithin(rest)
    ensures Content([a, b] + rest) == a.text + ((if |b.calls| > 0 then "" else b.text) + Content(rest))
  {
    var s := [a, b] + rest;
    assert s[1..] == [b] + rest && s[1..][1..] == rest;
    assert CallsWithin(s) == [] + CallsWithin(s[1..]);
  }

  // ---------------------------------------------------------------- a stream

  lemma {:induction false} CallsInAppend<C>(parse: Parse<C>, a: seq<Match>, b: seq<Match>)
    ensures CallsIn(parse, a + b) == CallsIn(parse, a) + CallsIn(parse, b)
  {
    if a == [] {
      assert a + b == b;
    } else {
      CallsInAppend(parse, a[1..], b);
      assert (a + b)[1..] == a[1..] + b;
      Regroup(parse(a[0].inner), CallsIn(parse, a[1..]), CallsIn(parse, b));
    }
  }

  /** The calls of a text stay the first calls of every longer one. */
  lemma CallsAreStable<C>(parse: Parse<C>, text: string, more: string)
    ensures Extends(CallsFrom(parse, text, 0), CallsFrom(parse, text + more, 0))
  {
    BlocksAreStable(text, more, 0);
    MoreBlocksMoreCalls(parse, Blocks(text, 0), Blocks(text + more, 0));
  }

  lemma MoreBlocksMoreCalls<C>(parse: Parse<C>, known: seq<Match>, all: seq<Match>)
    requires |known| <= |all| && all[..|known|] == known
    ensures Extends(CallsIn(parse, known), CallsIn(parse, all))
  {
    assert all == known + all[|known|..];
    CallsInAppend(parse, known, all[|known|..]);
  }

  function Calls<C>(parse: Parse<C>): CallsOf<C> {
    text => CallsFrom(parse, text, 0)
  }

  function MoreEnds(): NewEnd {
    (previous, current) => Count(current, 0) > Count(previous, 0)
  }

  lemma CallsGrow<C>(parse: Parse<C>)
    ensures Grows(Calls(parse), MoreEnds())
  {
    forall text, delta ensures
      && Extends(Calls(parse)(text), Calls(parse)(text + delta))
      && (MoreEnds()(text, text + delta) || Calls(parse)(text + delta) == Calls(parse)(text)) {
      CallsAreStable(parse, text, delta);
      if Count(text + delta, 0) <= Count(text, 0) { NoNewEndNoNewBlock(text, delta); }
    }
  }

  /** For every way of cutting an output into deltas, the stream emits the calls of the whole output,
      each exactly once, in order, with indices 0, 1, 2, ... */
  lemma StreamingEqualsBatch<C>(parse: Parse<C>, deltas: seq<string>)
    ensures Stream(Calls(parse), MoreEnds(), 0, "", deltas) == Numbered(CallsFrom(parse, Joined(deltas), 0), 0)
  {
    CallsGrow(parse);
    StreamFrom(Calls(parse), MoreEnds(), "", deltas);
    assert NextBlock("", 0).None?;
    assert "" + Joined(deltas) == Joined(deltas);
    assert CallsFrom(parse, Joined(deltas), 0)[0..] == CallsFrom(parse, Joined(deltas), 0);
  }

  // ---------------------------------------------------------------- one more block

  lemma OneBlock<C>(parse: Parse<C>, text: string, from: nat)
    requires from <= |text| && NextBlock(text, from).Some?
    ensures var m := NextBlock(text, from).value;
            var calls := parse(m.inner);
            var shown := if |calls| > 0 then "" else text[m.start..m.end];
      && CallsFrom(parse, text, from) == calls + CallsFrom(parse, text, m.end)
      && Content(Segments(parse, text, from)) ==
        text[from..m.start] + (shown + Content(Segments(parse, text, m.end)))
  {
    var m := NextBlock(text, from).value;
    var segments := Segments(parse, text, from);
    Unfold(segments[0], segments[1], Segments(parse, text, m.end));
    assert Blocks(text, from)[1..] == Blocks(text, m.end);
  }

  // ---------------------------------------------------------------- what is left out of the content

  /** The characters of the blocks that yield calls, markers included. */
  function Hidden<C>(parse: Parse<C>, blocks: seq<Match>): int {
    if blocks == [] then 0
    else (if parse(blocks[0].inner) == [] then 0 else blocks[0].end - blocks[0].start) + Hidden(parse, blocks[1..])
  }

  /** The content lacks exactly as many characters as the blocks that yield calls have. */
  lemma {:induction false} OnlyCallsAreLeftOut<C>(parse: Parse<C>, text: string, from: nat)
    requires from <= |text|
    ensures |Content(Segments(parse, text, from))| == |text| - from - Hidden(parse, Blocks(text, from))
    decreases |text| - from
  {
    if NextBlock(text, from).None? {
      assert Segments(parse, text, from)[1..] == [];
    } else {
      var m := NextBlock(text, from).value;
      OneBlock(parse, text, from);
      OnlyCallsAreLeftOut(parse, text, m.end);
      assert Blocks(text, from)[1..] == Blocks(text, m.end);
    }
  }

  /** An output without calls is all content: a block that yields none stays where it is. */
  lemma {:induction false} WithoutCallsAllIsContent<C>(parse: Parse<C>, text: string, from: nat)
    requires from <= |text| && CallsFrom(parse, text, from) == []
    ensures Content(Segments(parse, text, from)) == text[from..]
    decreases |text| - from
  {
    if NextBlock(text, from).None? {
      assert Segments(parse, text, from)[1..] == [];
    } else {
      var m := NextBlock(text, from).value;
      OneBlock(parse, text, from);
      WithoutCallsAllIsContent(parse, text, m.end);
      assert text[from..] == text[from..m.start] + (text[m.start..m.end] + text[m.end..]);
    }
  }
}
