/**
 tools/regtool_rpn.c, run_expression: evaluating an expression in reverse Polish notation while
 macros are expanded on the fly. A macro can use those that were defined before it.

 Expressions are lists of tokens. What the operators do to the stack is a parameter.
 */
module Rpn {
  import opened Basics

  datatype Token = Num(v: nat) | Op(o: nat) | Name(s: nat)

  datatype Macro = Macro(name: nat, body: seq<Token>)

  datatype Value = Value(kind: nat, val: nat)

  /** An operator on a stack of values: the new stack, or an evaluation error. */
  type Operators = (nat, seq<Value>) -> Option<seq<Value>>

  const NUMBER := 0

  /** lines 257-259: the first macro below end with this name, or end. */
  function Find(macros: seq<Macro>, end: nat, name: nat, i: nat): (r: nat)
    requires i <= end <= |macros|
    ensures i <= r <= end && (r < end ==> macros[r].name == name)
    ensures forall j :: i <= j < r ==> macros[j].name != name
    decreases end - i
  {
    if i == end then end else if macros[i].name == name then i else Find(macros, end, name, i + 1)
  }

  // ---- the fully inlined expression ----------------------------------------

  /** What remains of an expression when all macros are replaced by their bodies; Unknown is a name that is none. */
  datatype Item = Number(v: nat) | Operator(o: nat) | Unknown(s: nat)

  function Inline(macros: seq<Macro>, end: nat, toks: seq<Token>): seq<Item>
    requires end <= |macros|
    decreases end, |toks|
  {
    if toks == [] then [] else InlineOne(macros, end, toks[0]) + Inline(macros, end, toks[1..])
  }

  function InlineOne(macros: seq<Macro>, end: nat, tok: Token): seq<Item>
    requires end <= |macros|
    decreases end, 0
  {
    match tok
    case Num(v) => [Number(v)]
    case Op(o) => [Operator(o)]
    case Name(s) =>
      var i := Find(macros, end, s, 0);
      if i < end then Inline(macros, i, macros[i].body) else [Unknown(s)]
  }

  function EvalOne(ops: Operators, stack: seq<Value>, item: Item): Option<seq<Value>>
  {
    match item
    case Number(v) => Some(stack + [Value(NUMBER, v)])
    case Operator(o) => ops(o, stack)
    case Unknown(_) => None
  }

  function Eval(ops: Operators, stack: seq<Value>, items: seq<Item>): Option<seq<Value>>
    decreases |items|
  {
    if items == [] then Some(stack)
    else
      match EvalOne(ops, stack, items[0])
      case None => None
      case Some(s) => Eval(ops, s, items[1..])
  }

  lemma {:induction false} EvalFirst(ops: Operators, stack: seq<Value>, item: Item, rest: seq<Item>)
    ensures Eval(ops, stack, [item] + rest) ==
            match EvalOne(ops, stack, item) case None => None case Some(s) => Eval(ops, s, rest)
  {
    assert ([item] + rest)[1..] == rest;
  }

  // ---- expanding on the fly ------------------------------------------------

  /** struct parse_ctx: what is left of an expression, and the macros it can use. */
  datatype Context = Context(toks: seq<Token>, end: nat)

  ghost predicate GoodContexts(macros: seq<Macro>, ctxs: seq<Context>)
  {
    forall i :: 0 <= i < |ctxs| ==> ctxs[i].toks != [] && ctxs[i].end <= |macros|
  }

  /** All that is to come after the current expression, the latest context first. */
  function Pending(macros: seq<Macro>, ctxs: seq<Context>): seq<Item>
    requires GoodContexts(macros, ctxs)
  {
    if ctxs == [] then []
    else
      var c := ctxs[|ctxs| - 1];
      Inline(macros, c.end, c.toks) + Pending(macros, ctxs[..|ctxs| - 1])
  }

  /** How many tokens it takes to get through an expression, those of the macros included. */
  function Work(macros: seq<Macro>, end: nat, toks: seq<Token>): nat
    requires end <= |macros|
    decreases end, |toks|
  {
    if toks == [] then 0 else WorkOne(macros, end, toks[0]) + Work(macros, end, toks[1..])
  }

  function WorkOne(macros: seq<Macro>, end: nat, tok: Token): (n: nat)
    requires end <= |macros|
    ensures n > 0
    decreases end, 0
  {
    if tok.Name? && Find(macros, end, tok.s, 0) < end then
      var i := Find(macros, end, tok.s, 0);
      1 + Work(macros, i, macros[i].body)
    else 1
  }

  function PendingWork(macros: seq<Macro>, ctxs: seq<Context>): nat
    requires GoodContexts(macros, ctxs)
  {
    if ctxs == [] then 0
    else
      var c := ctxs[|ctxs| - 1];
      Work(macros, c.end, c.toks) + PendingWork(macros, ctxs[..|ctxs| - 1])
  }

  /** All that is to come. */
  function Ahead(macros: seq<Macro>, end: nat, toks: seq<Token>, ctxs: seq<Context>): seq<Item>
    requires end <= |macros| && GoodContexts(macros, ctxs)
  {
    Inline(macros, end, toks) + Pending(macros, ctxs)
  }

  function WorkAhead(macros: seq<Macro>, end: nat, toks: seq<Token>, ctxs: seq<Context>): nat
    requires end <= |macros| && GoodContexts(macros, ctxs)
  {
    Work(macros, end, toks) + PendingWork(macros, ctxs)
  }

  /** lines 232-238 */
  lemma {:induction false} PopContext(macros: seq<Macro>, end: nat, ctxs: seq<Context>)
    requires end <= |macros| && GoodContexts(macros, ctxs) && ctxs != []
    ensures var c, rest := ctxs[|ctxs| - 1], ctxs[..|ctxs| - 1];
            && GoodContexts(macros, rest) && c.end <= |macros| && c.toks != []
            && Ahead(macros, end, [], ctxs) == Ahead(macros, c.end, c.toks, rest)
            && WorkAhead(macros, end, [], ctxs) == WorkAhead(macros, c.end, c.toks, rest)
  {
    assert [] + Pending(macros, ctxs) == Pending(macros, ctxs);
  }

  /** A token that is not a macro is the first item of what is to come. */
  lemma {:induction false} PlainAhead(macros: seq<Macro>, end: nat, toks: seq<Token>, ctxs: seq<Context>, item: Item)
    requires end <= |macros| && GoodContexts(macros, ctxs) && toks != [] && InlineOne(macros, end, toks[0]) == [item]
    ensures Ahead(macros, end, toks, ctxs) == [item] + Ahead(macros, end, toks[1..], ctxs)
    ensures WorkAhead(macros, end, toks[1..], ctxs) < WorkAhead(macros, end, toks, ctxs)
  {
    assert [item] + Inline(macros, end, toks[1..]) + Pending(macros, ctxs) == [item] + (Inline(macros, end, toks[1..]) + Pending(macros, ctxs));
  }

  /** lines 261-267: nothing is pushed if nothing follows. */
  function Pushed(ctxs: seq<Context>, toks: seq<Token>, end: nat): seq<Context>
  {
    if toks == [] then ctxs else ctxs + [Context(toks, end)]
  }

  lemma {:induction false} MacroAhead(macros: seq<Macro>, end: nat, toks: seq<Token>, ctxs: seq<Context>, i: nat)
    requires end <= |macros| && GoodContexts(macros, ctxs) && toks != [] && toks[0].Name?
    requires i == Find(macros, end, toks[0].s, 0) < end
    ensures GoodContexts(macros, Pushed(ctxs, toks[1..], end))
    ensures Ahead(macros, end, toks, ctxs) == Ahead(macros, i, macros[i].body, Pushed(ctxs, toks[1..], end))
    ensures WorkAhead(macros, i, macros[i].body, Pushed(ctxs, toks[1..], end)) < WorkAhead(macros, end, toks, ctxs)
  {
    var body, rest, p := Inline(macros, i, macros[i].body), Inline(macros, end, toks[1..]), Pending(macros, ctxs);
    var ctxs' := Pushed(ctxs, toks[1..], end);
    assert Inline(macros, end, toks) == body + rest;
    assert Work(macros, end, toks) == WorkOne(macros, end, toks[0]) + Work(macros, end, toks[1..]);
    if toks[1..] == [] {
      assert rest == [] && body + [] + p == body + p;
    } else {
      assert ctxs'[..|ctxs'| - 1] == ctxs && ctxs'[|ctxs'| - 1] == Context(toks[1..], end);
      assert body + rest + p == body + (rest + p);
      assert PendingWork(macros, ctxs') == Work(macros, end, toks[1..]) + PendingWork(macros, ctxs);
    }
  }

  /** run_expression: it ends, and with the value of the inlined expression. */
  method RunExpression(macros: seq<Macro>, expr: seq<Token>, ops: Operators, stack0: seq<Value>)
    returns (res: Option<seq<Value>>)
    ensures res == Eval(ops, stack0, Inline(macros, |macros|, expr))
  {
    var toks, end: nat, ctxs, stack := expr, |macros|, [], stack0;
    assert Inline(macros, |macros|, expr) + [] == Inline(macros, |macros|, expr);
    while true
      invariant end <= |macros| && GoodContexts(macros, ctxs)
      invariant Eval(ops, stack0, Inline(macros, |macros|, expr)) == Eval(ops, stack, Ahead(macros, end, toks, ctxs))
      decreases WorkAhead(macros, end, toks, ctxs)
    {
      if toks == [] {
        if ctxs == [] {
          break;
        }
        PopContext(macros, end, ctxs);
        var c := ctxs[|ctxs| - 1];
        ctxs := ctxs[..|ctxs| - 1];
        toks, end := c.toks, c.end;
      }
      match toks[0]
      case Num(v) =>
        PlainAhead(macros, end, toks, ctxs, Number(v));
        EvalFirst(ops, stack, Number(v), Ahead(macros, end, toks[1..], ctxs));
        stack := stack + [Value(NUMBER, v)];
        toks := toks[1..];
      case Op(o) =>
        PlainAhead(macros, end, toks, ctxs, Operator(o));
        EvalFirst(ops, stack, Operator(o), Ahead(macros, end, toks[1..], ctxs));
        var next := ops(o, stack);
        if next.None? {
          return None;
        }
        stack := next.value;
        toks := toks[1..];
      case Name(s) =>
        var i := Find(macros, end, s, 0);
        if i == end {
          PlainAhead(macros, end, toks, ctxs, Unknown(s));
          EvalFirst(ops, stack, Unknown(s), Ahead(macros, end, toks[1..], ctxs));
          return None;
        }
        MacroAhead(macros, end, toks, ctxs, i);
        ctxs := Pushed(ctxs, toks[1..], end);
        toks, end := macros[i].body, i;
    }
    res := Some(stack);
  }

  /**
   The inlined expression of a token list is that of its parts: expanding in place is the same
   as expanding at once.
   */
  lemma {:induction false} InlineConcat(macros: seq<Macro>, end: nat, a: seq<Token>, b: seq<Token>)
    requires end <= |macros|
    ensures Inline(macros, end, a + b) == Inline(macros, end, a) + Inline(macros, end, b)
    decreases |a|
  {
    if a == [] {
      assert a + b == b;
    } else {
      assert (a + b)[1..] == a[1..] + b;
      InlineConcat(macros, end, a[1..], b);
    }
  }

  /** Using a macro means using its body, with the macros that were there when it was defined. */
  lemma {:induction false} UseIsBody(macros: seq<Macro>, ops: Operators, stack: seq<Value>, a: seq<Token>, s: nat,
                                     b: seq<Token>)
    requires Find(macros, |macros|, s, 0) < |macros|
    ensures var i := Find(macros, |macros|, s, 0);
            Eval(ops, stack, Inline(macros, |macros|, a + [Name(s)] + b)) ==
            Eval(ops, stack, Inline(macros, |macros|, a) + Inline(macros, i, macros[i].body) + Inline(macros, |macros|, b))
  {
    InlineConcat(macros, |macros|, a + [Name(s)], b);
    InlineConcat(macros, |macros|, a, [Name(s)]);
    assert [Name(s)][1..] == [];
    var i := Find(macros, |macros|, s, 0);
    assert Inline(macros, |macros|, [Name(s)]) == Inline(macros, i, macros[i].body) + [];
    assert Inline(macros, i, macros[i].body) + [] == Inline(macros, i, macros[i].body);
  }
}
