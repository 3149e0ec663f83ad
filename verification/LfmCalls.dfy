/** What one control block means: a list of calls with named literal arguments, decoded from a syntax
    tree without evaluating anything, all of it or nothing. */
module LfmCalls {
  import opened Wrappers

  // ---------------------------------------------------------------- syntax trees and values

  /** A floating-point literal; it may have overflowed to infinity. */
  datatype Float = Finite(r: real) | NotFinite

  datatype Sign = Minus | Plus | OtherSign

  /** Number tokens carry no sign. */
  type Unsigned = f: Float | f.Finite? ==> f.r >= 0.0 witness NotFinite

  datatype Expr =
    | NoneConst
    | BoolConst(b: bool)
    | IntConst(i: nat)
    | FloatConst(f: Unsigned)
    | StrConst(s: string)
    | OtherConst
    | Name(id: string)
    | Unary(op: Sign, operand: Expr)
    | Sequence(elts: seq<Expr>, isTuple: bool)
    | Dict(entries: seq<Entry>)
    | Call(func: Expr, args: seq<Expr>, keywords: seq<Keyword>)
    | OtherExpr

  /** A dictionary entry; an unpacked dictionary has no key. */
  datatype Entry = Entry(key: Option<Expr>, value: Expr)

  datatype Keyword = Keyword(arg: Option<string>, value: Expr)

  datatype Value =
    | VNull
    | VBool(b: bool)
    | VInt(i: int)
    | VFloat(f: Float)
    | VStr(s: string)
    | VList(items: seq<Value>)
    | VObject(fields: map<string, Value>)

  datatype ToolCall = ToolCall(name: string, arguments: map<string, Value>)

  // ---------------------------------------------------------------- literals

  function Negated(f: Float): Float {
    if f.Finite? then Finite(-f.r) else NotFinite
  }

  function NamedConstant(id: string): Option<Value> {
    if id == "None" || id == "null" then Some(VNull)
    else if id == "True" || id == "true" then Some(VBool(true))
    else if id == "False" || id == "false" then Some(VBool(false))
    else None
  }

  /** The value of a literal; `None` where the interpreter refuses. */
  function Literal(e: Expr): Option<Value>
    decreases e, 0
  {
    match e
    case NoneConst => Some(VNull)
    case BoolConst(b) => Some(VBool(b))
    case IntConst(i) => Some(VInt(i))
    case FloatConst(f) => Some(VFloat(f))
    case StrConst(s) => Some(VStr(s))
    case Name(id) => NamedConstant(id)
    case Unary(op, operand) => Signed(op, Literal(operand))
    case Sequence(_, _) => Listed(Literals(e, |e.elts|))
    case Dict(_) => Mapped(Fields(e, |e.entries|))
    case _ => None
  }

  /** Signs are for numbers only, and booleans are not numbers. */
  function Signed(op: Sign, v: Option<Value>): Option<Value> {
    if op == OtherSign then None
    else
      match v
      case Some(VInt(i)) => Some(VInt(if op == Minus then -i else i))
      case Some(VFloat(f)) => Some(VFloat(if op == Minus then Negated(f) else f))
      case _ => None
  }

  function Listed(values: Option<seq<Value>>): Option<Value> {
    if values.Some? then Some(VList(values.value)) else None
  }

  function Mapped(fields: Option<map<string, Value>>): Option<Value> {
    if fields.Some? then Some(VObject(fields.value)) else None
  }

  /** The first n elements of a list or tuple. */
  function Literals(e: Expr, n: nat): Option<seq<Value>>
    requires e.Sequence? && n <= |e.elts|
    decreases e, 0, n
  {
    if n == 0 then Some([])
    else
      match (Literals(e, n - 1), Literal(e.elts[n - 1]))
      case (Some(values), Some(v)) => Some(values + [v])
      case _ => None
  }

  /** The first n entries of a dictionary; later ones overwrite earlier ones with the same key. */
  function Fields(e: Expr, n: nat): Option<map<string, Value>>
    requires e.Dict? && n <= |e.entries|
    decreases e, 0, n
  {
    if n == 0 then Some(map[])
    else
      var last := e.entries[n - 1];
      if last.key.None? then None
      else
        match (Fields(e, n - 1), Literal(last.key.value), Literal(last.value))
        case (Some(fields), Some(VStr(k)), Some(v)) => Some(fields[k := v])
        case _ => None
  }

  // ---------------------------------------------------------------- every value can be written

  lemma {:induction false} LiteralsOfPrefix(e: Expr, f: Expr, n: nat)
    requires e.Sequence? && f.Sequence? && n <= |e.elts| && n <= |f.elts| && e.elts[..n] == f.elts[..n]
    ensures Literals(e, n) == Literals(f, n)
  {
    if n > 0 {
      assert e.elts[..n][n - 1] == f.elts[..n][n - 1];
      assert e.elts[..n - 1] == e.elts[..n][..n - 1] == f.elts[..n - 1];
      LiteralsOfPrefix(e, f, n - 1);
    }
  }

  lemma {:induction false} FieldsOfPrefix(e: Expr, f: Expr, n: nat)
    requires e.Dict? && f.Dict? && n <= |e.entries| && n <= |f.entries| && e.entries[..n] == f.entries[..n]
    ensures Fields(e, n) == Fields(f, n)
  {
    if n > 0 {
      assert e.entries[..n][n - 1] == f.entries[..n][n - 1];
      assert e.entries[..n - 1] == e.entries[..n][..n - 1] == f.entries[..n - 1];
      FieldsOfPrefix(e, f, n - 1);
    }
  }

  function FloatLiteral(f: Float): (e: Expr)
    ensures Literal(e) == Some(VFloat(f))
  {
    if f.Finite? && f.r < 0.0 then Unary(Minus, FloatConst(Finite(-f.r))) else FloatConst(f)
  }

  /** The literal subset is complete: every value of JSON, at any depth, has a literal. */
  lemma {:induction false} EveryValueHasALiteral(v: Value) returns (e: Expr)
    ensures Literal(e) == Some(v)
    decreases v, 1
  {
    match v
    case VNull => e := NoneConst;
    case VBool(b) => e := BoolConst(b);
    case VInt(i) => e := if i < 0 then Unary(Minus, IntConst(-i)) else IntConst(i);
    case VFloat(f) => e := FloatLiteral(f);
    case VStr(s) => e := StrConst(s);
    case VList(items) => e := ListLiteral(v, |items|); assert items[..|items|] == items;
    case VObject(fields) =>
      e := ObjectLiteral(v, fields.Keys);
      assert (map k | k in fields.Keys :: fields[k]) == fields;
  }

  lemma {:induction false} ListLiteral(v: Value, n: nat) returns (e: Expr)
    requires v.VList? && n <= |v.items|
    ensures e.Sequence? && |e.elts| == n && Literals(e, n) == Some(v.items[..n])
    decreases v, 0, n
  {
    if n == 0 {
      e := Sequence([], false);
    } else {
      var front := ListLiteral(v, n - 1);
      var last := EveryValueHasALiteral(v.items[n - 1]);
      e := Sequence(front.elts + [last], false);
      assert e.elts[..n - 1] == front.elts == front.elts[..n - 1];
      LiteralsOfPrefix(e, front, n - 1);
      assert v.items[..n] == v.items[..n - 1] + [v.items[n - 1]];
    }
  }

  lemma {:induction false} ObjectLiteral(v: Value, keys: set<string>) returns (e: Expr)
    requires v.VObject? && keys <= v.fields.Keys
    ensures e.Dict? && Fields(e, |e.entries|) == Some(map k | k in keys :: v.fields[k])
    decreases v, 0, |keys|
  {
    if keys == {} {
      e := Dict([]);
    } else {
      var key :| key in keys;
      var front := ObjectLiteral(v, keys - {key});
      var value := EveryValueHasALiteral(v.fields[key]);
      var n := |front.entries|;
      e := Dict(front.entries + [Entry(Some(StrConst(key)), value)]);
      assert e.entries[..n] == front.entries == front.entries[..n];
      FieldsOfPrefix(e, front, n);
      assert (map k | k in keys :: v.fields[k]) == (map k | k in keys - {key} :: v.fields[k])[key := v.fields[key]];
    }
  }

  // ---------------------------------------------------------------- one block

  /** JSON has no spelling for an infinite number. */
  predicate Writable(v: Value) {
    match v
    case VFloat(f) => f.Finite?
    case VList(items) => forall i :: 0 <= i < |items| ==> Writable(items[i])
    case VObject(fields) => forall k :: k in fields ==> Writable(fields[k])
    case _ => true
  }

  /** The names that may be called, when the request lists its tools, and what counts as a name. */
  datatype Policy = Policy(allowed: Option<set<string>>, identifier: string -> bool)

  predicate Callable(policy: Policy, name: string) {
    policy.identifier(name) && (policy.allowed.Some? ==> name in policy.allowed.value)
  }

  predicate DistinctNames(keywords: seq<Keyword>) {
    forall i, j :: 0 <= i < j < |keywords| ==> keywords[i].arg != keywords[j].arg
  }

  /** The first n arguments by name. */
  function Arguments(keywords: seq<Keyword>, n: nat): Option<map<string, Value>>
    requires n <= |keywords|
  {
    if n == 0 then Some(map[])
    else
      match (Arguments(keywords, n - 1), keywords[n - 1].arg, Literal(keywords[n - 1].value))
      case (Some(arguments), Some(name), Some(v)) => Some(arguments[name := v])
      case _ => None
  }

  /** The call that an item of the list denotes, if it is one that may be made. */
  function CallOf(item: Expr, policy: Policy): Option<ToolCall> {
    if !(item.Call? && item.func.Name? && Callable(policy, item.func.id)) then None
    else if item.args != [] || !DistinctNames(item.keywords) then None
    else
      match Arguments(item.keywords, |item.keywords|)
      case Some(arguments) => if Writable(VObject(arguments)) then Some(ToolCall(item.func.id, arguments)) else None
      case None => None
  }

  predicate AllCalls(elts: seq<Expr>, policy: Policy) {
    forall i :: 0 <= i < |elts| ==> CallOf(elts[i], policy).Some?
  }

  /** All the calls of a block, or none. */
  function BlockCalls(tree: Option<Expr>, policy: Policy): seq<ToolCall> {
    if tree.Some? && tree.value.Sequence? && !tree.value.isTuple && AllCalls(tree.value.elts, policy)
    then seq(|tree.value.elts|, i requires 0 <= i < |tree.value.elts| && CallOf(tree.value.elts[i], policy).Some? =>
      CallOf(tree.value.elts[i], policy).value)
    else []
  }

  /** Decode the arguments of one call, stopping at the first that is refused. */
  method DecodeArguments(keywords: seq<Keyword>) returns (arguments: Option<map<string, Value>>)
    ensures arguments == Arguments(keywords, |keywords|)
  {
    var decoded: map<string, Value> := map[];
    for n := 0 to |keywords|
      invariant Arguments(keywords, n) == Some(decoded)
    {
      var v := Literal(keywords[n].value);
      if keywords[n].arg.None? || v.None? {
        RefusedForGood(keywords, n + 1, |keywords|);
        return None;
      }
      decoded := decoded[keywords[n].arg.value := v.value];
    }
    return Some(decoded);
  }

  lemma {:induction false} RefusedForGood(keywords: seq<Keyword>, n: nat, m: nat)
    requires n <= m <= |keywords| && Arguments(keywords, n) == None
    ensures Arguments(keywords, m) == None
    decreases m - n
  {
    if n < m { RefusedForGood(keywords, n + 1, m); }
  }

  method ParseBlock(tree: Option<Expr>, policy: Policy) returns (calls: seq<ToolCall>)
    ensures calls == BlockCalls(tree, policy)
  {
    if tree.None? || !tree.value.Sequence? || tree.value.isTuple { return []; }
    var elts := tree.value.elts;
    calls := [];
    for i := 0 to |elts|
      invariant |calls| == i
      invariant forall j :: 0 <= j < i ==> CallOf(elts[j], policy) == Some(calls[j])
    {
      var item := elts[i];
      if !item.Call? || !item.func.Name? || !Callable(policy, item.func.id) { return []; }
      if item.args != [] || !DistinctNames(item.keywords) { return []; }
      var arguments := DecodeArguments(item.keywords);
      if arguments.None? || !Writable(VObject(arguments.value)) { return []; }
      calls := calls + [ToolCall(item.func.id, arguments.value)];
    }
  }

  /** The decoded arguments are exactly the named ones, each with the value of its literal. */
  lemma {:induction false} ArgumentsAreExact(keywords: seq<Keyword>, n: nat)
    requires n <= |keywords| && DistinctNames(keywords) && Arguments(keywords, n).Some?
    ensures var m := Arguments(keywords, n).value;
      && (forall i :: 0 <= i < n ==>
        && keywords[i].arg.Some? && keywords[i].arg.value in m
        && Literal(keywords[i].value) == Some(m[keywords[i].arg.value]))
      && (forall k :: k in m ==> exists i :: 0 <= i < n && keywords[i].arg == Some(k))
  {
    if n > 0 {
      ArgumentsAreExact(keywords, n - 1);
      var m := Arguments(keywords, n).value;
      forall i | 0 <= i < n - 1 ensures keywords[i].arg != keywords[n - 1].arg {}
      forall k | k in m ensures exists i :: 0 <= i < n && keywords[i].arg == Some(k) {
        if Some(k) == keywords[n - 1].arg { assert keywords[n - 1].arg == Some(k); }
        else { assert k in Arguments(keywords, n - 1).value; }
      }
    }
  }

  /** A block yields one call per item or none at all; no name or argument is invented. */
  lemma CallsAreFaithful(tree: Option<Expr>, policy: Policy, i: nat)
    requires i < |BlockCalls(tree, policy)|
    ensures var elts := tree.value.elts; var call := BlockCalls(tree, policy)[i];
      && |BlockCalls(tree, policy)| == |elts| && elts[i].Call? && elts[i].func == Name(call.name)
      && Callable(policy, call.name) && elts[i].args == []
      && (forall j :: 0 <= j < |elts[i].keywords| ==>
        var keyword := elts[i].keywords[j];
        keyword.arg.Some? && keyword.arg.value in call.arguments
        && Literal(keyword.value) == Some(call.arguments[keyword.arg.value]))
      && (forall k :: k in call.arguments ==>
        exists j :: 0 <= j < |elts[i].keywords| && elts[i].keywords[j].arg == Some(k))
  {
    var item := tree.value.elts[i];
    assert CallOf(item, policy).Some?;
    ArgumentsAreExact(item.keywords, |item.keywords|);
  }
}
