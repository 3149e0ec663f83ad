/** The tool-call parser: extraction from a whole output, and incremental extraction while the output
    streams in. */
module LfmToolParser {
  import opened Wrappers
  import opened LfmBlocks
  import opened LfmCalls
  import opened LfmStreaming
  import opened LfmIncremental

  /** Parsing the text of a block into a syntax tree. */
  type Syntax = string -> Option<Expr>

  function BlockParser(syntax: Syntax, policy: Policy): Parse<ToolCall> {
    inner => BlockCalls(syntax(inner), policy)
  }

  // ---------------------------------------------------------------- trimming

  /** The characters that count as white space. */
  type Space = char -> bool

  function TrimStart(s: string, space: Space): string {
    if s != [] && space(s[0]) then TrimStart(s[1..], space) else s
  }

  function TrimEnd(s: string, space: Space): string {
    if s != [] && space(s[|s| - 1]) then TrimEnd(s[..|s| - 1], space) else s
  }

  function CleanText(s: string, space: Space): Option<string> {
    var trimmed := TrimEnd(TrimStart(s, space), space);
    if trimmed == "" then None else Some(trimmed)
  }

  predicate Blank(s: string, space: Space) {
    forall k :: 0 <= k < |s| ==> space(s[k])
  }

  lemma {:induction false} TrimStartDrops(s: string, space: Space) returns (lead: string)
    ensures s == lead + TrimStart(s, space) && Blank(lead, space)
    ensures TrimStart(s, space) != [] ==> !space(TrimStart(s, space)[0])
  {
    if s != [] && space(s[0]) {
      var rest := TrimStartDrops(s[1..], space);
      lead := [s[0]] + rest;
    } else {
      lead := "";
    }
  }

  lemma {:induction false} TrimEndDrops(s: string, space: Space) returns (tail: string)
    ensures s == TrimEnd(s, space) + tail && Blank(tail, space)
    ensures TrimEnd(s, space) != [] ==> !space(TrimEnd(s, space)[|TrimEnd(s, space)| - 1])
  {
    if s != [] && space(s[|s| - 1]) {
      var rest := TrimEndDrops(s[..|s| - 1], space);
      tail := rest + [s[|s| - 1]];
    } else {
      tail := "";
    }
  }

  /** Cleaning removes white space at both ends and nothing else; only blank text is dropped. */
  lemma CleanTextIsInner(s: string, space: Space) returns (lead: string, tail: string)
    ensures Blank(lead, space) && Blank(tail, space)
    ensures var clean := CleanText(s, space);
      && (clean.None? <==> Blank(s, space))
      && (clean.Some? ==>
            var t := clean.value; s == lead + t + tail && t != [] && !space(t[0]) && !space(t[|t| - 1]))
  {
    lead := TrimStartDrops(s, space);
    var started := TrimStart(s, space);
    tail := TrimEndDrops(started, space);
    var t := TrimEnd(started, space);
    if t != [] {
      assert started[0] == t[0];
      assert s[|lead|] == started[0];
    }
  }

  // ---------------------------------------------------------------- the parser

  class Parser {
    const syntax: Syntax
    const space: Space
    var prevToolCallArr: seq<ToolCall>

    constructor (syntax: Syntax, space: Space)
      ensures this.syntax == syntax && this.space == space && prevToolCallArr == []
    {
      this.syntax, this.space := syntax, space;
      prevToolCallArr := [];
    }

    /** Walk the blocks of a whole output: their calls, and the text that stays. */
    method ScanBlocks(output: string, policy: Policy) returns (calls: seq<ToolCall>, content: string)
      ensures calls == CallsFrom(BlockParser(syntax, policy), output, 0)
      ensures content == Content(Segments(BlockParser(syntax, policy), output, 0))
    {
      calls, content := [], "";
      ghost var parse := BlockParser(syntax, policy);
      var cursor := 0;
      var next := NextBlock(output, cursor);
      while next.Some?
        invariant cursor <= |output| && next == NextBlock(output, cursor)
        invariant calls + CallsFrom(parse, output, cursor) == CallsFrom(parse, output, 0)
        invariant content + Content(Segments(parse, output, cursor)) == Content(Segments(parse, output, 0))
        decreases |output| - cursor
      {
        var m := next.value;
        var blockCalls := ParseBlock(syntax(m.inner), policy);
        assert blockCalls == parse(m.inner);
        OneBlock(parse, output, cursor);
        var shown := if |blockCalls| > 0 then "" else output[m.start..m.end];
        ghost var rest := Content(Segments(parse, output, m.end));
        calls := Extend(calls, blockCalls, CallsFrom(parse, output, m.end));
        content := Extend(content, output[cursor..m.start], shown + rest);
        content := Extend(content, shown, rest);
        cursor := m.end;
        next := NextBlock(output, cursor);
      }
      assert Segments(parse, output, cursor)[1..] == [];
      content := content + output[cursor..];
    }

    /** The calls of a whole output, and its trimmed content. */
    method ExtractToolCalls(output: string, policy: Policy)
      returns (calls: seq<ToolCall>, clean: Option<string>)
      ensures calls == CallsFrom(BlockParser(syntax, policy), output, 0)
      ensures clean == CleanText(Content(Segments(BlockParser(syntax, policy), output, 0)), space)
    {
      var content;
      calls, content := ScanBlocks(output, policy);
      clean := CleanText(content, space);
    }

    /** Emit the calls that the new text completes. */
    method ExtractToolCallsStreaming(previous: string, current: string, policy: Policy)
      returns (emitted: seq<(nat, ToolCall)>)
      modifies this`prevToolCallArr
      ensures emitted == Emitted(
        |old(prevToolCallArr)|, CallsFrom(BlockParser(syntax, policy), current, 0), MoreEnds()(previous, current))
      ensures prevToolCallArr ==
        if emitted == [] then old(prevToolCallArr) else CallsFrom(BlockParser(syntax, policy), current, 0)
      ensures emitted != [] ==> |prevToolCallArr| == |old(prevToolCallArr)| + |emitted|
    {
      if Count(current, 0) <= Count(previous, 0) { return []; }
      var calls, _ := ExtractToolCalls(current, policy);
      var n := |prevToolCallArr|;
      if |calls| <= n { return []; }
      prevToolCallArr := calls;
      emitted := Numbered(calls[n..], n);
    }
  }

  /** Append a part of what is still to come. */
  method Extend<T>(done: seq<T>, part: seq<T>, ghost rest: seq<T>) returns (longer: seq<T>)
    ensures longer == done + part && longer + rest == done + (part + rest)
  {
    longer := done + part;
  }
}
