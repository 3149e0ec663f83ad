/** What an output means, read from the left: an output without a completed control block is all content,
    and the first completed block adds its calls, or itself when it yields none, between what stands
    before it and what the rest means. */
module LfmContent {
  import opened Wrappers
  import opened LfmBlocks
  import opened LfmStreaming

  /** Somewhere a start marker is followed by an end marker. */
  ghost predicate HasBlock(text: string) {
    exists i: nat, j: nat ::
      At(text, i, "<|tool_call_start|>") && At(text, j, "<|tool_call_end|>") && i + 19 <= j
  }

  lemma BlockShows(text: string)
    requires NextBlock(text, 0).Some?
    ensures HasBlock(text)
  {
    NextMeans(text, 0);
    var m := NextBlock(text, 0).value;
    assert At(text, m.start, START) && At(text, m.end - |END|, END) && m.start + 19 <= m.end - |END|;
  }

  lemma WithoutABlock<C>(parse: Parse<C>, text: string)
    requires !HasBlock(text)
    ensures CallsFrom(parse, text, 0) == [] && Content(Segments(parse, text, 0)) == text
  {
    if NextBlock(text, 0).Some? { BlockShows(text); }
    assert text[0..] == text;
    WithoutCallsAllIsContent(parse, text, 0);
  }

  lemma Pieces(text: string, before: string, start: string, inner: string, end: string, after: string)
    requires text == before + start + inner + end + after
    ensures var block := start + inner + end;
      text[0..|before|] == before && text[|before|..|before| + |block|] == block
  {
    assert text == before + (start + inner + end) + after;
  }

  lemma FirstBlock<C>(parse: Parse<C>, text: string, m: Match)
    requires NextBlock(text, 0) == Some(m)
    ensures CallsFrom(parse, text, 0) == parse(m.inner) + CallsFrom(parse, text, m.end)
    ensures Content(Segments(parse, text, 0)) == text[0..m.start] +
      ((if parse(m.inner) == [] then text[m.start..m.end] else "") + Content(Segments(parse, text, m.end)))
  {
    OneBlock(parse, text, 0);
  }

  /** The first completed block: a start marker where none is before, and an end marker where none is
      between the two. The rest of the output is read from its end on. */
  lemma WithABlock<C>(parse: Parse<C>, text: string, before: string, inner: string, after: string)
    requires text == before + "<|tool_call_start|>" + inner + "<|tool_call_end|>" + after
    requires forall j :: 0 <= j < |before| ==> !At(text, j, "<|tool_call_start|>")
    requires forall j :: |before| + 19 <= j < |before| + 19 + |inner| ==> !At(text, j, "<|tool_call_end|>")
    ensures var block := "<|tool_call_start|>" + inner + "<|tool_call_end|>";
      var end := |before| + |block|;
      && CallsFrom(parse, text, 0) == parse(inner) + CallsFrom(parse, text, end)
      && Content(Segments(parse, text, 0)) ==
           before + ((if parse(inner) == [] then block else "") + Content(Segments(parse, text, end)))
  {
    BlockIsFound(text, before, inner, after);
    Pieces(text, before, START, inner, END, after);
    FirstBlock(parse, text, Match(|before|, |before| + |START + inner + END|, inner));
  }
}
