/** What the literals of a tool call mean, said independently of the decoder: a value is spelled by
    exactly these expressions. And which blocks are calls: the parser yields them all or none. */
module LfmLiterals {
  import opened Wrappers
  import opened LfmCalls

  // ---------------------------------------------------------------- the spellings of a value

  /** The name of an entry, if it has one. */
  function NameOf(entry: Entry): Option<string> {
    if entry.key.Some? && entry.key.value.StrConst? then Some(entry.key.value.s) else None
  }

  /** Of the first n entries, this is the last with the name. */
  predicate LastBefore(entries: seq<Entry>, k: nat, n: nat, name: string)
    requires k < n <= |entries|
  {
    NameOf(entries[k]) == Some(name) && forall l :: k < l < n ==> NameOf(entries[l]) != Some(name)
  }

  /** A number with any signs in front. */
  predicate IsNumber(e: Expr) {
    e.IntConst? || e.FloatConst? || (e.Unary? && (e.op == Plus || e.op == Minus) && IsNumber(e.operand))
  }

  /** The literal subset. */
  predicate IsLiteral(e: Expr) {
    match e
    case NoneConst => true
    case BoolConst(_) => true
    case StrConst(_) => true
    case Name(id) => id in {"None", "null", "True", "true", "False", "false"}
    case Sequence(elts, _) => forall k :: 0 <= k < |elts| ==> IsLiteral(elts[k])
    case Dict(entries) =>
      forall k :: 0 <= k < |entries| ==>
        entries[k].key.Some? && entries[k].key.value.StrConst? && IsLiteral(entries[k].value)
    case _ => IsNumber(e)
  }

  function Opposite(v: Value): Value
    requires v.VInt? || v.VFloat?
  {
    match v
    case VInt(i) => VInt(0 - i)
    case VFloat(Finite(r)) => VFloat(Finite(0.0 - r))
    case VFloat(NotFinite) => v
  }

  /** The expression spells the value: Python's and JSON's names for null and the booleans, unsigned
      numbers with any number of signs in front, strings, lists or tuples, and dictionaries with string
      keys, of which the last of several equal ones counts. */
  ghost predicate Spells(e: Expr, v: Value)
    decreases e, 1
  {
    match v
    case VNull => e == NoneConst || e == Name("None") || e == Name("null")
    case VBool(true) => e == BoolConst(true) || e == Name("True") || e == Name("true")
    case VBool(false) => e == BoolConst(false) || e == Name("False") || e == Name("false")
    case VStr(s) => e == StrConst(s)
    case VInt(i) =>
      || (e.IntConst? && e.i == i)
      || (e.Unary? && e.op == Plus && Spells(e.operand, v))
      || (e.Unary? && e.op == Minus && Spells(e.operand, Opposite(v)))
    case VFloat(f) =>
      || (e.FloatConst? && e.f == f)
      || (e.Unary? && e.op == Plus && Spells(e.operand, v))
      || (e.Unary? && e.op == Minus && Spells(e.operand, Opposite(v)))
    case VList(items) =>
      && e.Sequence? && |e.elts| == |items|
      && forall k :: 0 <= k < |items| ==> Spells(e.elts[k], items[k])
    case VObject(fields) =>
      && e.Dict? && NamesOnly(e.entries, fields)
      && forall name :: name in fields ==> LastSpells(e, name, fields[name])
  }

  /** Every entry is a literal under one of the names. */
  predicate NamesOnly(entries: seq<Entry>, fields: map<string, Value>) {
    forall k :: 0 <= k < |entries| ==>
      NameOf(entries[k]).Some? && NameOf(entries[k]).value in fields && IsLiteral(entries[k].value)
  }

  /** The last entry with the name spells the value. */
  ghost predicate LastSpells(e: Expr, name: string, w: Value)
    requires e.Dict?
    decreases e, 0
  {
    exists k :: 0 <= k < |e.entries| && LastBefore(e.entries, k, |e.entries|, name) && Spells(e.entries[k].value, w)
  }

  // ---------------------------------------------------------------- sequences and dictionaries

  lemma {:induction false} LiteralsAre(e: Expr, n: nat)
    requires e.Sequence? && n <= |e.elts|
    ensures Literals(e, n).Some? <==> forall k :: 0 <= k < n ==> Literal(e.elts[k]).Some?
    ensures Literals(e, n).Some? ==> |Literals(e, n).value| == n
    ensures Literals(e, n).Some? ==> forall k :: 0 <= k < n ==> Literal(e.elts[k]) == Some(Literals(e, n).value[k])
  {
    if n > 0 { LiteralsAre(e, n - 1); }
  }

  lemma OnlyStringsAreNames(e: Expr)
    ensures Literal(e).Some? && Literal(e).value.VStr? <==> e.StrConst?
    ensures e.StrConst? ==> Literal(e) == Some(VStr(e.s))
  {}

  ghost predicate Decodable(entry: Entry) {
    NameOf(entry).Some? && Literal(entry.value).Some?
  }

  lemma {:induction false} FieldsDecode(e: Expr, n: nat)
    requires e.Dict? && n <= |e.entries|
    ensures Fields(e, n).Some? <==> forall k :: 0 <= k < n ==> Decodable(e.entries[k])
    decreases n
  {
    if n > 0 {
      FieldsDecode(e, n - 1);
      var last := e.entries[n - 1];
      if last.key.Some? { OnlyStringsAreNames(last.key.value); }
    }
  }

  lemma FieldsStep(e: Expr, n: nat)
    requires e.Dict? && 0 < n <= |e.entries| && Fields(e, n).Some?
    ensures Fields(e, n - 1).Some? && Decodable(e.entries[n - 1])
    ensures Fields(e, n).value == Fields(e, n - 1).value[
      NameOf(e.entries[n - 1]).value := Literal(e.entries[n - 1].value).value]
  {
    OnlyStringsAreNames(e.entries[n - 1].key.value);
  }

  lemma {:induction false} FieldsNames(e: Expr, n: nat, name: string)
    requires e.Dict? && n <= |e.entries| && Fields(e, n).Some?
    ensures name in Fields(e, n).value <==> exists k :: 0 <= k < n && NameOf(e.entries[k]) == Some(name)
    decreases n
  {
    if n > 0 {
      FieldsStep(e, n);
      FieldsNames(e, n - 1, name);
      if NameOf(e.entries[n - 1]) == Some(name) { assert 0 <= n - 1 < n; }
    }
  }

  /** What the first n entries put under a name: the value of the last of them with that name. */
  lemma {:induction false} FieldsHold(e: Expr, n: nat, k: nat, name: string)
    requires e.Dict? && k < n <= |e.entries| && Fields(e, n).Some? && LastBefore(e.entries, k, n, name)
    ensures name in Fields(e, n).value && Literal(e.entries[k].value) == Some(Fields(e, n).value[name])
    decreases n
  {
    FieldsStep(e, n);
    if k < n - 1 { FieldsHold(e, n - 1, k, name); }
  }

  lemma {:induction false} LastExists(entries: seq<Entry>, n: nat, name: string) returns (k: nat)
    requires n <= |entries| && exists j :: 0 <= j < n && NameOf(entries[j]) == Some(name)
    ensures k < n && LastBefore(entries, k, n, name)
  {
    if NameOf(entries[n - 1]) == Some(name) { k := n - 1; } else { k := LastExists(entries, n - 1, name); }
  }

  lemma {:induction false} NumbersDecode(e: Expr)
    requires e.IntConst? || e.FloatConst? || e.Unary?
    ensures IsNumber(e) <==> Literal(e).Some?
    ensures Literal(e).Some? ==> Literal(e).value.VInt? || Literal(e).value.VFloat?
    decreases e
  {
    if e.Unary? && (e.operand.IntConst? || e.operand.FloatConst? || e.operand.Unary?) { NumbersDecode(e.operand); }
  }

  /** The decoder accepts exactly the literal subset. */
  lemma {:induction false} LiteralSubset(e: Expr)
    ensures IsLiteral(e) <==> Literal(e).Some?
    decreases e
  {
    match e
    case Sequence(elts, _) =>
      LiteralsAre(e, |elts|);
      forall k | 0 <= k < |elts| ensures IsLiteral(elts[k]) <==> Literal(elts[k]).Some? { LiteralSubset(elts[k]); }
    case Dict(entries) =>
      FieldsDecode(e, |entries|);
      forall k | 0 <= k < |entries|
        ensures Decodable(entries[k]) <==>
          entries[k].key.Some? && entries[k].key.value.StrConst? && IsLiteral(entries[k].value) {
        LiteralSubset(entries[k].value);
      }
    case IntConst(_) => NumbersDecode(e);
    case FloatConst(_) => NumbersDecode(e);
    case Unary(_, _) => NumbersDecode(e);
    case _ =>
  }

  // ---------------------------------------------------------------- decoding is exact

  /** What the decoder accepts is a spelling of what it yields. */
  lemma {:induction false} DecodedIsSpelled(e: Expr)
    requires Literal(e).Some?
    ensures Spells(e, Literal(e).value)
    decreases e, 2
  {
    if e.Unary? { DecodedNumberIsSpelled(e); }
    else if e.Sequence? { DecodedListIsSpelled(e); }
    else if e.Dict? { DecodedDictIsSpelled(e); }
    else { DecodedLeafIsSpelled(e); }
  }

  lemma DecodedLeafIsSpelled(e: Expr)
    requires Literal(e).Some? && !e.Unary? && !e.Sequence? && !e.Dict?
    ensures Spells(e, Literal(e).value)
  {}

  lemma {:induction false} DecodedNumberIsSpelled(e: Expr)
    requires Literal(e).Some? && e.Unary?
    ensures Spells(e, Literal(e).value)
    decreases e, 0
  {
    DecodedIsSpelled(e.operand);
    var v := Literal(e.operand).value;
    assert v.VInt? || v.VFloat?;
    assert Opposite(Opposite(v)) == v;
  }

  lemma {:induction false} DecodedListIsSpelled(e: Expr)
    requires Literal(e).Some? && e.Sequence?
    ensures Spells(e, Literal(e).value)
    decreases e, 0
  {
    LiteralsAre(e, |e.elts|);
    forall k | 0 <= k < |e.elts| ensures Spells(e.elts[k], Literal(e.elts[k]).value) { DecodedIsSpelled(e.elts[k]); }
  }

  lemma {:induction false} DecodedDictIsSpelled(e: Expr)
    requires e.Dict? && Literal(e).Some?
    ensures Spells(e, Literal(e).value)
    decreases e, 0
  {
    var n := |e.entries|;
    var fields := Fields(e, n).value;
    FieldsDecode(e, n);
    forall k | 0 <= k < n
      ensures NameOf(e.entries[k]).Some? && NameOf(e.entries[k]).value in fields && IsLiteral(e.entries[k].value) {
      assert Decodable(e.entries[k]);
      LiteralSubset(e.entries[k].value);
      FieldsNames(e, n, NameOf(e.entries[k]).value);
    }
    forall name | name in fields ensures LastSpells(e, name, fields[name]) {
      FieldsNames(e, n, name);
      var k := LastExists(e.entries, n, name);
      FieldsHold(e, n, k, name);
      DecodedIsSpelled(e.entries[k].value);
    }
  }

  lemma SpelledDictDecodes(e: Expr, fields: map<string, Value>)
    requires e.Dict? && NamesOnly(e.entries, fields)
    ensures Fields(e, |e.entries|).Some? && Fields(e, |e.entries|).value.Keys <= fields.Keys
  {
    forall k | 0 <= k < |e.entries| ensures Decodable(e.entries[k]) { LiteralSubset(e.entries[k].value); }
    FieldsDecode(e, |e.entries|);
    forall name | name in Fields(e, |e.entries|).value ensures name in fields {
      FieldsNames(e, |e.entries|, name);
      var k :| 0 <= k < |e.entries| && NameOf(e.entries[k]) == Some(name);
    }
  }

  lemma {:induction false} SpelledEntry(e: Expr, name: string, w: Value)
    requires e.Dict? && Fields(e, |e.entries|).Some? && LastSpells(e, name, w)
    ensures name in Fields(e, |e.entries|).value && Fields(e, |e.entries|).value[name] == w
    decreases e, 0
  {
    var n := |e.entries|;
    var k :| 0 <= k < n && LastBefore(e.entries, k, n, name) && Spells(e.entries[k].value, w);
    SpelledIsDecoded(e.entries[k].value, w);
    FieldsHold(e, n, k, name);
  }

  lemma {:induction false} SpelledDictIsDecoded(e: Expr, v: Value)
    requires v.VObject? && Spells(e, v)
    ensures Literal(e) == Some(v)
    decreases e, 1
  {
    SpelledDictDecodes(e, v.fields);
    var fields := Fields(e, |e.entries|).value;
    forall name | name in v.fields ensures name in fields && fields[name] == v.fields[name] {
      SpelledEntry(e, name, v.fields[name]);
    }
    assert fields == v.fields;
  }

  /** Every spelling of a value is accepted, and yields that value. */
  lemma {:induction false} SpelledIsDecoded(e: Expr, v: Value)
    requires Spells(e, v)
    ensures Literal(e) == Some(v)
    decreases e, 2
  {
    match v
    case VInt(_) => SpelledNumberIsDecoded(e, v);
    case VFloat(_) => SpelledNumberIsDecoded(e, v);
    case VList(items) =>
      forall k | 0 <= k < |items| ensures Literal(e.elts[k]) == Some(items[k]) {
        SpelledIsDecoded(e.elts[k], items[k]);
      }
      LiteralsAre(e, |e.elts|);
      assert Literals(e, |e.elts|).value == items;
    case VObject(_) => SpelledDictIsDecoded(e, v);
    case _ =>
  }

  lemma {:induction false} SpelledNumberIsDecoded(e: Expr, v: Value)
    requires (v.VInt? || v.VFloat?) && Spells(e, v)
    ensures Literal(e) == Some(v)
    decreases e, 0
  {
    if e.Unary? { SpelledIsDecoded(e.operand, if e.op == Minus then Opposite(v) else v); }
  }

  /** The decoder accepts exactly the spellings, and yields what they spell. */
  lemma LiteralsAreSpellings(e: Expr, v: Value)
    ensures Literal(e) == Some(v) <==> Spells(e, v)
  {
    if Literal(e) == Some(v) { DecodedIsSpelled(e); }
    if Spells(e, v) { SpelledIsDecoded(e, v); }
  }

  // ---------------------------------------------------------------- numbers that JSON cannot spell

  /** A number that is not finite, at any depth. */
  ghost predicate HasInfinity(v: Value) {
    match v
    case VFloat(f) => f == NotFinite
    case VList(items) => exists i :: 0 <= i < |items| && HasInfinity(items[i])
    case VObject(fields) => exists k :: k in fields && HasInfinity(fields[k])
    case _ => false
  }

  lemma {:induction false} WritableIsFinite(v: Value)
    ensures Writable(v) <==> !HasInfinity(v)
    decreases v
  {
    match v
    case VList(items) => forall i | 0 <= i < |items| ensures Writable(items[i]) <==> !HasInfinity(items[i]) {
      WritableIsFinite(items[i]);
    }
    case VObject(fields) => forall k | k in fields ensures Writable(fields[k]) <==> !HasInfinity(fields[k]) {
      WritableIsFinite(fields[k]);
    }
    case _ =>
  }

  // ---------------------------------------------------------------- which items are calls

  /** Each argument is one of the keywords, and each keyword spells its argument. */
  ghost predicate Matches(keywords: seq<Keyword>, arguments: map<string, Value>) {
    && (forall i :: 0 <= i < |keywords| ==>
          && keywords[i].arg.Some? && keywords[i].arg.value in arguments
          && Spells(keywords[i].value, arguments[keywords[i].arg.value]))
    && (forall name :: name in arguments ==> exists i :: 0 <= i < |keywords| && keywords[i].arg == Some(name))
  }

  /** The item is this call: an admitted name applied to named arguments only, no name twice, each a
      literal that JSON can spell. */
  ghost predicate IsCall(item: Expr, policy: Policy, call: ToolCall) {
    && item.Call? && item.func == Name(call.name) && item.args == []
    && policy.identifier(call.name) && (policy.allowed == None || call.name in policy.allowed.value)
    && (forall i, j :: 0 <= i < j < |item.keywords| ==> item.keywords[i].arg != item.keywords[j].arg)
    && Matches(item.keywords, call.arguments)
    && forall name :: name in call.arguments ==> !HasInfinity(call.arguments[name])
  }

  /** The arguments decoded from the first n keywords are among the matching ones. */
  ghost predicate DecodedSoFar(keywords: seq<Keyword>, arguments: map<string, Value>, n: nat)
    requires n <= |keywords|
  {
    && Arguments(keywords, n).Some?
    && (forall name :: name in Arguments(keywords, n).value ==>
          name in arguments && Arguments(keywords, n).value[name] == arguments[name])
    && (forall i :: 0 <= i < n ==> keywords[i].arg.Some? && keywords[i].arg.value in Arguments(keywords, n).value)
  }

  lemma OneMoreArgument(keywords: seq<Keyword>, arguments: map<string, Value>, n: nat, name: string)
    requires n < |keywords| && DecodedSoFar(keywords, arguments, n) && keywords[n].arg == Some(name)
    requires name in arguments && Literal(keywords[n].value) == Some(arguments[name])
    ensures DecodedSoFar(keywords, arguments, n + 1)
  {
    assert Arguments(keywords, n + 1).value == Arguments(keywords, n).value[name := arguments[name]];
  }

  lemma {:induction false} MatchingArguments(keywords: seq<Keyword>, arguments: map<string, Value>, n: nat)
    requires n <= |keywords| && Matches(keywords, arguments)
    ensures DecodedSoFar(keywords, arguments, n)
    decreases n
  {
    if n > 0 {
      var name := keywords[n - 1].arg.value;
      MatchingArguments(keywords, arguments, n - 1);
      SpelledIsDecoded(keywords[n - 1].value, arguments[name]);
      OneMoreArgument(keywords, arguments, n - 1, name);
    }
  }

  lemma ArgumentsMatch(keywords: seq<Keyword>)
    requires DistinctNames(keywords) && Arguments(keywords, |keywords|).Some?
    ensures Matches(keywords, Arguments(keywords, |keywords|).value)
  {
    var arguments := Arguments(keywords, |keywords|).value;
    ArgumentsAreExact(keywords, |keywords|);
    forall i | 0 <= i < |keywords|
      ensures keywords[i].arg.Some? && keywords[i].arg.value in arguments
      ensures Spells(keywords[i].value, arguments[keywords[i].arg.value]) {
      DecodedIsSpelled(keywords[i].value);
    }
  }

  lemma FiniteArguments(arguments: map<string, Value>)
    ensures Writable(VObject(arguments)) <==> forall name :: name in arguments ==> !HasInfinity(arguments[name])
  {
    forall name | name in arguments ensures Writable(arguments[name]) <==> !HasInfinity(arguments[name]) {
      WritableIsFinite(arguments[name]);
    }
  }

  lemma ItemIsCall(item: Expr, policy: Policy, call: ToolCall)
    ensures CallOf(item, policy) == Some(call) <==> IsCall(item, policy, call)
  {
    if CallOf(item, policy) == Some(call) {
      ArgumentsMatch(item.keywords);
      FiniteArguments(call.arguments);
    }
    if IsCall(item, policy, call) {
      MatchingArguments(item.keywords, call.arguments, |item.keywords|);
      forall name | name in call.arguments ensures name in Arguments(item.keywords, |item.keywords|).value {
        var i :| 0 <= i < |item.keywords| && item.keywords[i].arg == Some(name);
      }
      assert Arguments(item.keywords, |item.keywords|).value == call.arguments;
      FiniteArguments(call.arguments);
    }
  }

  ghost predicate AreCalls(elts: seq<Expr>, policy: Policy, calls: seq<ToolCall>) {
    |calls| == |elts| && forall i :: 0 <= i < |elts| ==> IsCall(elts[i], policy, calls[i])
  }

  /** A block whose tree is a list of calls yields exactly these calls, in order; any other block yields
      none at all. */
  lemma BlocksYieldTheirCalls(tree: Option<Expr>, policy: Policy)
    ensures forall calls ::
      tree.Some? && tree.value.Sequence? && !tree.value.isTuple && AreCalls(tree.value.elts, policy, calls) ==>
      BlockCalls(tree, policy) == calls
    ensures BlockCalls(tree, policy) != [] ==>
      tree.Some? && tree.value.Sequence? && !tree.value.isTuple
      && AreCalls(tree.value.elts, policy, BlockCalls(tree, policy))
  {
    forall calls | tree.Some? && tree.value.Sequence? && !tree.value.isTuple
      && AreCalls(tree.value.elts, policy, calls) ensures BlockCalls(tree, policy) == calls {
      forall i | 0 <= i < |calls| ensures CallOf(tree.value.elts[i], policy) == Some(calls[i]) {
        ItemIsCall(tree.value.elts[i], policy, calls[i]);
      }
      assert AllCalls(tree.value.elts, policy);
    }
    if BlockCalls(tree, policy) != [] {
      var calls := BlockCalls(tree, policy);
      forall i | 0 <= i < |calls| ensures IsCall(tree.value.elts[i], policy, calls[i]) {
        assert CallOf(tree.value.elts[i], policy).Some?;
        ItemIsCall(tree.value.elts[i], policy, calls[i]);
      }
    }
  }
}
