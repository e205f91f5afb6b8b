/** The evaluator as the program runs it: the operator stack `OpStack`, the
    value stack `ValStack` with their stack pointers, the token buffer
    `ExprBuf`, and the `nonconst_expr` flag of the parse, updated in place
    by the bounded push and pop primitives, the operators and the loops of
    `Evaluate`.  Every method is proved to agree with the functions of
    `EvalSpec` on the abstract `State` of the stacks, except where a buffer
    allocation fails (E_NO_MEM), which the functions do not model. */
module Evaluator {
  import opened Errors
  import opened Chars
  import opened Values
  import opened Literals
  import opened Tables
  import opened Tokens
  import opened DynBuf
  import opened EvalSpec

  /** A method outcome agrees with its specification: success yields what
      the function yields, and a failure other than E_NO_MEM is the
      function's error. */
  ghost predicate Agrees<T>(spec: Result<T>, r: Outcome, got: T) {
    (r == Pass ==> spec == Ok(got)) &&
    (r.Fail? && r.error != NoMem ==> spec == Err(r.error))
  }

  /** A method outcome is exactly its specification's result. */
  ghost predicate Exactly<T>(spec: Result<T>, r: Outcome, got: T) {
    (r == Pass ==> spec == Ok(got)) && (r.Fail? ==> spec == Err(r.error))
  }

  /** The built-in function table is sorted, as `FindFunc` requires. */
  predicate FuncTable(env: Env) {
    FuncsSorted(env.funcs) && FuncNamesNulFree(env.funcs)
  }

  class Machine {
    const opStack: array<Operator>
    var opSp: int
    const valStack: array<Value>
    var valSp: int
    /** `p->nonconst_expr` */
    var nonconst: bool
    /** `ExprBuf` */
    const buf: DynamicBuffer

    ghost predicate Valid()
      reads this, buf, buf.Repr
    {
      buf.Valid() && this !in buf.Repr && opStack !in buf.Repr && valStack !in buf.Repr &&
      0 <= opSp <= opStack.Length && 0 <= valSp <= valStack.Length
    }

    /** The stacks up to their pointers. */
    ghost function St(): State
      reads this, opStack, valStack
      requires 0 <= opSp <= opStack.Length && 0 <= valSp <= valStack.Length
    {
      State(opStack[..opSp], valStack[..valSp], nonconst)
    }

    /** The parameters of a parse of `s`, with the stack sizes
        OP_STACK_SIZE and VAL_STACK_SIZE of this machine. */
    ghost function Context(cfg: Config, fns: OpFns, env: Env, s: string): Ctx {
      Ctx(cfg, fns, env, s, opStack.Length, valStack.Length)
    }

    /** Empty stacks and an empty token buffer. */
    constructor Init(opSize: nat, valSize: nat, mallocLimit: int)
      ensures Valid() && fresh(buf.Repr) && fresh(opStack) && fresh(valStack)
      ensures opStack.Length == opSize && valStack.Length == valSize
      ensures St() == State([], [], false) && buf.Contents() == []
    {
      opStack := new Operator[opSize];
      valStack := new Value[valSize];
      buf := new DynamicBuffer.Init(mallocLimit);
      opSp, valSp, nonconst := 0, 0, false;
    }

    /** `PushOpStack`: E_OP_STK_OVER on a full stack, which is left as it
        was; otherwise the operator goes on top. */
    method PushOpStack(o: Operator) returns (r: Outcome)
      requires Valid()
      modifies this, opStack
      ensures Valid() && unchanged(valStack) && valSp == old(valSp) && nonconst == old(nonconst)
      ensures r == Pass <==> old(opSp) < opStack.Length
      ensures r == Pass ==> St() == old(St()).(ops := old(St()).ops + [o])
      ensures r != Pass ==> r == Fail(OpStackOver) && opSp == old(opSp) && unchanged(opStack)
    {
      if opSp >= opStack.Length {
        return Fail(OpStackOver);
      }
      opStack[opSp] := o;
      opSp := opSp + 1;
      return Pass;
    }

    /** `PopOpStack`: E_OP_STK_UNDER on an empty stack; otherwise the top
        operator is taken off. */
    method PopOpStack() returns (r: Outcome, o: Operator)
      requires Valid()
      modifies this
      ensures Valid() && valSp == old(valSp) && nonconst == old(nonconst)
      ensures r == Pass <==> old(opSp) > 0
      ensures r == Pass ==> o == old(opStack[opSp - 1]) && opSp == old(opSp) - 1
      ensures r == Pass ==> St() == EvalSpec.PopOp(old(St()))
      ensures r != Pass ==> r == Fail(OpStackUnder) && opSp == old(opSp)
    {
      if opSp <= 0 {
        return Fail(OpStackUnder), Operator([], 0, OpAdd);
      }
      opSp := opSp - 1;
      o := opStack[opSp];
      return Pass, o;
    }

    /** `PushValStack`: E_VA_STK_OVER on a full stack, which is left as it
        was; otherwise the value goes on top. */
    method PushValStack(v: Value) returns (r: Outcome)
      requires Valid()
      modifies this, valStack
      ensures Valid() && unchanged(opStack) && opSp == old(opSp) && nonconst == old(nonconst)
      ensures r == Pass <==> old(valSp) < valStack.Length
      ensures r == Pass ==> St() == old(St()).(vals := old(St()).vals + [v])
      ensures r != Pass ==> r == Fail(ValStackOver) && valSp == old(valSp) && unchanged(valStack)
    {
      if valSp >= valStack.Length {
        return Fail(ValStackOver);
      }
      valStack[valSp] := v;
      valSp := valSp + 1;
      return Pass;
    }

    /** `PopValStack` and `FnPopValStack`: E_VA_STK_UNDER on an empty
        stack; otherwise the top value is taken off. */
    method PopValStack() returns (r: Outcome, v: Value)
      requires Valid()
      modifies this
      ensures Valid() && opSp == old(opSp) && nonconst == old(nonconst)
      ensures r == Pass <==> old(valSp) > 0
      ensures r == Pass ==> v == old(valStack[valSp - 1]) && valSp == old(valSp) - 1
      ensures r != Pass ==> r == Fail(ValStackUnder) && valSp == old(valSp)
    {
      if valSp <= 0 {
        return Fail(ValStackUnder), ErrV;
      }
      valSp := valSp - 1;
      v := valStack[valSp];
      return Pass, v;
    }

    /** A push onto a stack with room, then a pop: the pushed operator
        comes back and both stacks are as they were. */
    method OpRoundTrip(o: Operator) returns (r: Outcome, got: Operator)
      requires Valid() && opSp < opStack.Length
      modifies this, opStack
      ensures Valid() && r == Pass && got == o
      ensures St() == old(St()) && opSp == old(opSp)
    {
      r := PushOpStack(o);
      r, got := PopOpStack();
    }

    /** The same for the value stack. */
    method ValRoundTrip(v: Value) returns (r: Outcome, got: Value)
      requires Valid() && valSp < valStack.Length
      modifies this, valStack
      ensures Valid() && r == Pass && got == v
      ensures St() == old(St()) && valSp == old(valSp)
    {
      r := PushValStack(v);
      r, got := PopValStack();
    }

    /** `(op.func)()`: a unary operator rewrites the top value in place; a
        binary one pops its right and then its left operand and pushes the
        result.  A failing operator has touched no slot, and has popped at
        most its two operands. */
    method ApplyOp(fns: OpFns, op: Operator) returns (r: Outcome)
      requires Valid() && (op.Unary() ==> valSp > 0)
      modifies this, valStack
      ensures Valid() && opSp == old(opSp) && nonconst == old(nonconst)
      ensures Exactly(Apply(fns, op, old(St())), r, St())
      ensures r != Pass ==> unchanged(valStack) && old(valSp) - 2 <= valSp <= old(valSp)
      ensures r != Pass && op.Unary() ==> valSp == old(valSp)
    {
      ghost var st := St();
      if op.Unary() {
        var res := fns.unary(op.code, valStack[valSp - 1]);
        if res.Err? {
          return Fail(res.error);
        }
        valStack[valSp - 1] := res.value;
        assert valStack[..valSp] == st.vals[..valSp - 1] + [res.value];
        return Pass;
      }
      var r2, v2 := PopValStack();
      if r2 != Pass {
        return r2;
      }
      var r1, v1 := PopValStack();
      if r1 != Pass {
        return r1;
      }
      assert valStack[..valSp] == st.vals[..|st.vals| - 2];
      var res := fns.binary(op.code, v1, v2);
      if res.Err? {
        return Fail(res.error);
      }
      r := PushValStack(res.value);
    }

    /** The loop at the end of an expression: while operators are stacked
        above `opBase`, the top one is popped and applied. */
    method DrainStack(fns: OpFns, opBase: nat, valBase: nat) returns (r: Outcome)
      requires Valid() && Shape(St(), Base(opBase, valBase), 1)
      modifies this, valStack
      ensures Valid() && nonconst == old(nonconst)
      ensures Kept(old(St()), Base(opBase, valBase), St())
      ensures Exactly(Drain(fns, old(St()), Base(opBase, valBase)), r, St())
    {
      ghost var b := Base(opBase, valBase);
      ghost var st0 := St();
      while opSp > opBase
        invariant Valid() && nonconst == st0.nonconst
        invariant Shape(St(), b, 1) && Kept(st0, b, St())
        invariant Drain(fns, St(), b) == Drain(fns, st0, b)
        decreases opSp
      {
        ghost var st := St();
        r := DrainOnce(fns, opBase, valBase);
        KeptTrans(st0, b, st, St());
        if r != Pass {
          return;
        }
      }
      assert St().ops[b.op..] == [];
      return Pass;
    }

    /** One round of `DrainStack`. */
    method DrainOnce(fns: OpFns, opBase: nat, valBase: nat) returns (r: Outcome)
      requires Valid() && Shape(St(), Base(opBase, valBase), 1) && opSp > opBase
      modifies this, valStack
      ensures Valid() && nonconst == old(nonconst) && opSp < old(opSp)
      ensures Kept(old(St()), Base(opBase, valBase), St())
      ensures r == Pass ==> (Shape(St(), Base(opBase, valBase), 1) &&
        Drain(fns, St(), Base(opBase, valBase)) == Drain(fns, old(St()), Base(opBase, valBase)))
      ensures r.Fail? ==> Drain(fns, old(St()), Base(opBase, valBase)) == Err(r.error)
    {
      ghost var st := St();
      ApplyTop(fns, st, Base(opBase, valBase), 1);
      var rp, op := PopOpStack();
      if rp != Pass {
        return rp;
      }
      assert op == st.ops[|st.ops| - 1];
      r := ApplyOp(fns, op);
      DrainStep(fns, st, Base(opBase, valBase), Apply(fns, op, EvalSpec.PopOp(st)));
    }

    /** The loop before a binary operator of precedence `prec` is pushed:
        while the operator on top, above `opBase`, binds at least as
        tightly, it is popped and applied. */
    method ReduceStack(fns: OpFns, opBase: nat, valBase: nat, prec: int) returns (r: Outcome)
      requires Valid() && Shape(St(), Base(opBase, valBase), 1)
      modifies this, valStack
      ensures Valid() && nonconst == old(nonconst)
      ensures Kept(old(St()), Base(opBase, valBase), St())
      ensures Exactly(Reduce(fns, old(St()), Base(opBase, valBase), prec), r, St())
    {
      ghost var b := Base(opBase, valBase);
      ghost var st0 := St();
      while TopBinds(opBase, valBase, prec)
        invariant Valid() && nonconst == st0.nonconst
        invariant Shape(St(), b, 1) && Kept(st0, b, St())
        invariant Reduce(fns, St(), b, prec) == Reduce(fns, st0, b, prec)
        decreases opSp
      {
        ghost var st := St();
        r := ReduceOnce(fns, opBase, valBase, prec);
        KeptTrans(st0, b, st, St());
        if r != Pass {
          return;
        }
      }
      ReduceDone(fns, St(), b, prec);
      return Pass;
    }

    /** The loop condition of `ReduceStack`. */
    function TopBinds(opBase: nat, valBase: nat, prec: int): (r: bool)
      requires Valid()
      reads this, opStack, valStack, buf, buf.Repr
      ensures r == Binds(St(), Base(opBase, valBase), prec)
    {
      opSp > opBase && opStack[opSp - 1].prec >= prec
    }

    /** One round of `ReduceStack`. */
    method ReduceOnce(fns: OpFns, opBase: nat, valBase: nat, prec: int) returns (r: Outcome)
      requires Valid() && Shape(St(), Base(opBase, valBase), 1) && Binds(St(), Base(opBase, valBase), prec)
      modifies this, valStack
      ensures Valid() && nonconst == old(nonconst) && opSp < old(opSp)
      ensures Kept(old(St()), Base(opBase, valBase), St())
      ensures r == Pass ==> (Shape(St(), Base(opBase, valBase), 1) &&
        Reduce(fns, St(), Base(opBase, valBase), prec) == Reduce(fns, old(St()), Base(opBase, valBase), prec))
      ensures r.Fail? ==> Reduce(fns, old(St()), Base(opBase, valBase), prec) == Err(r.error)
    {
      ghost var st := St();
      ApplyTop(fns, st, Base(opBase, valBase), 1);
      var rp, op := PopOpStack();
      if rp != Pass {
        return rp;
      }
      assert op == st.ops[|st.ops| - 1];
      r := ApplyOp(fns, op);
      ReduceStep(fns, st, Base(opBase, valBase), prec, Apply(fns, op, EvalSpec.PopOp(st)));
    }

    /** `CallFunc` or `CallUserFunc` on the top `nargs` values; a
        non-constant built-in marks the expression non-constant. */
    method Invoke(env: Env, f: Option<BuiltinFunc>, name: string, nargs: nat) returns (r: Outcome)
      requires Valid() && nargs <= valSp
      modifies this, valStack
      ensures Valid() && opSp == old(opSp)
      ensures Exactly(EvalSpec.Invoke(env, valStack.Length, old(St()), f, name, nargs), r, St())
      ensures r != Pass ==> unchanged(valStack) && valSp == old(valSp)
    {
      ghost var st := St();
      if f.Some? && !f.value.isConstant {
        nonconst := true;
      }
      var args := valStack[valSp - nargs..valSp];
      assert args == st.vals[|st.vals| - nargs..];
      var res := if f.Some? then env.callFunc(f.value, args) else env.callUserFunc(name, args);
      if res.Err? {
        return Fail(res.error);
      }
      if nargs == 0 && valSp >= valStack.Length {
        return Fail(ValStackOver);
      }
      ReplaceArgs(nargs, res.value);
      return Pass;
    }

    /** The top `nargs` values replaced by the result of a call. */
    method ReplaceArgs(nargs: nat, v: Value)
      requires Valid() && nargs <= valSp && (nargs > 0 || valSp < valStack.Length)
      modifies this, valStack
      ensures Valid() && opSp == old(opSp) && nonconst == old(nonconst)
      ensures St() == old(St().(vals := St().vals[..valSp - nargs] + [v]))
    {
      ghost var before := valStack[..valSp - nargs];
      valStack[valSp - nargs] := v;
      valSp := valSp - nargs + 1;
      assert valStack[..valSp] == before + [v];
    }

    /** `CleanStack`: both stack pointers back to their entry depths. */
    method CleanStack(oldOp: int, oldVal: int)
      requires Valid() && 0 <= oldOp <= opSp && 0 <= oldVal <= valSp
      modifies this
      ensures Valid() && opSp == oldOp && valSp == oldVal && nonconst == old(nonconst)
      ensures St().ops == old(St().ops[..oldOp]) && St().vals == old(St().vals[..oldVal])
    {
      valSp := oldVal;
      opSp := oldOp;
    }

    /** The success path of `EvalExpr`: the pointers go back to the entry
        values and the value left at the old value-stack top is handed over,
        its slot marked as an error value. */
    method TakeResult(oldOp: int, oldVal: int) returns (v: Value)
      requires Valid() && 0 <= oldOp <= opSp && 0 <= oldVal < valSp
      modifies this, valStack
      ensures Valid() && opSp == oldOp && valSp == oldVal && nonconst == old(nonconst)
      ensures St().ops == old(St().ops[..oldOp]) && St().vals == old(St().vals[..oldVal])
      ensures v == old(St().vals[oldVal])
    {
      ghost var st := St();
      opSp, valSp := oldOp, oldVal;
      v := valStack[oldVal];
      valStack[oldVal] := ErrV;
      assert valStack[..valSp] == st.vals[..oldVal];
    }

    /** One pass of `Evaluate` looking for a value: reads a token and
        handles a parenthesised expression, a unary `+` (skipped), a
        function call, a unary operator or a literal.  Afterwards a value
        (`wantValue`) or an operator is expected. */
    method ValueStep(cfg: Config, fns: OpFns, env: Env, s: string, i: nat, ghost b: Base) returns (r: Outcome, next: nat, wantValue: bool)
      requires Valid() && i <= |s| && FuncTable(env) && Shape(St(), b, 0)
      modifies this, opStack, valStack, buf.Repr
      ensures Valid() && fresh(buf.Repr - old(buf.Repr))
      ensures Kept(old(St()), b, St())
      ensures r == Pass ==> (i < next <= |s| && Shape(St(), b, if wantValue then 0 else 1) &&
        Resume(Context(cfg, fns, env, s), b, St(), next, wantValue) == ValuePhase(Context(cfg, fns, env, s), b, old(St()), i))
      ensures r.Fail? && r.error != NoMem ==> ValuePhase(Context(cfg, fns, env, s), b, old(St()), i) == Err(r.error)
      decreases |s| - i, 1
    {
      r, next := ParseExprToken(buf, cfg, s, i);
      if r != Pass {
        return r, next, false;
      }
      var tok := buf.Contents();
      if |tok| == 0 {
        buf.Free();
        return Fail(Eoln), next, false;
      }
      r, next, wantValue := OperandStep(cfg, fns, env, s, tok, next, b);
    }

    /** Dispatches on a token read where a value is expected. */
    method OperandStep(cfg: Config, fns: OpFns, env: Env, s: string, tok: string, n: nat, ghost b: Base) returns (r: Outcome, next: nat, wantValue: bool)
      requires Valid() && n <= |s| && FuncTable(env) && Shape(St(), b, 0) && ValueToken(tok) && buf.Contents() == tok
      modifies this, opStack, valStack, buf.Repr
      ensures Valid() && fresh(buf.Repr - old(buf.Repr))
      ensures Kept(old(St()), b, St())
      ensures r == Pass ==> (n <= next <= |s| && Shape(St(), b, if wantValue then 0 else 1) &&
        Resume(Context(cfg, fns, env, s), b, St(), next, wantValue) == Operand(Context(cfg, fns, env, s), b, old(St()), tok, n))
      ensures r.Fail? && r.error != NoMem ==> Operand(Context(cfg, fns, env, s), b, old(St()), tok, n) == Err(r.error)
      decreases |s| - n, 6
    {
      if tok[0] == '(' {
        r, next := Parenthesised(cfg, fns, env, s, n, b);
        return r, next, false;
      } else if tok[0] == '+' {
        return Pass, n, true;
      } else if tok[|tok| - 1] == '(' {
        r, next := CallFunction(cfg, fns, env, s, tok[..|tok| - 1], n, b);
        return r, next, false;
      }
      r, wantValue := PrefixStep(cfg, fns, env, s, tok, n, b);
      next := n;
    }

    /** A parenthesised expression after its `(`: a nested `Evaluate`,
        which must stop at a `)`. */
    method Parenthesised(cfg: Config, fns: OpFns, env: Env, s: string, n: nat, ghost b: Base) returns (r: Outcome, next: nat)
      requires Valid() && n <= |s| && FuncTable(env) && Shape(St(), b, 0)
      modifies this, opStack, valStack, buf.Repr
      ensures Valid() && fresh(buf.Repr - old(buf.Repr))
      ensures Kept(old(St()), b, St())
      ensures r == Pass ==> (n <= next <= |s| && Shape(St(), b, 1) &&
        OperatorPhase(Context(cfg, fns, env, s), b, St(), next) == Paren(Context(cfg, fns, env, s), b, old(St()), n))
      ensures r.Fail? && r.error != NoMem ==> Paren(Context(cfg, fns, env, s), b, old(St()), n) == Err(r.error)
      decreases |s| - n, 3
    {
      ghost var st := St();
      buf.Free();
      r, next := Evaluate(cfg, fns, env, s, n);
      KeptWeaken(st, Base(|st.ops|, |st.vals|), b, St());
      if r != Pass {
        return;
      }
      if At(buf.Contents(), 0) != ')' {
        buf.Free();
        return Fail(MissRightParen), next;
      }
      Nested(Context(cfg, fns, env, s), st, b, 0, Done(St(), next, buf.Contents()));
    }

    /** A token that is a unary operator, which is stacked, or a literal,
        which becomes a value on the value stack. */
    method PrefixStep(cfg: Config, fns: OpFns, env: Env, ghost s: string, tok: string, n: nat, ghost b: Base) returns (r: Outcome, wantValue: bool)
      requires Valid() && n <= |s| && Shape(St(), b, 0) && ValueToken(tok) && NulFree(tok)
      modifies this, opStack, valStack, buf.Repr
      ensures Valid() && fresh(buf.Repr - old(buf.Repr))
      ensures Kept(old(St()), b, St())
      ensures r == Pass ==> (Shape(St(), b, if wantValue then 0 else 1) &&
        Resume(Context(cfg, fns, env, s), b, St(), n, wantValue) == Prefix(Context(cfg, fns, env, s), b, old(St()), tok, n))
      ensures r.Fail? ==> Prefix(Context(cfg, fns, env, s), b, old(St()), tok, n) == Err(r.error)
    {
      UnOpsSorted();
      var o := FindOperator(tok, UnOps);
      buf.Free();
      if o.Some? {
        UnOpsUnary();
        r := UnaryStep(cfg, fns, env, s, o.value, n, b);
        return r, true;
      }
      r := LiteralStep(cfg, fns, env, s, tok, n, b);
      return r, false;
    }

    /** A unary operator waits on the operator stack. */
    method UnaryStep(ghost cfg: Config, ghost fns: OpFns, ghost env: Env, ghost s: string, o: Operator, ghost n: nat, ghost b: Base) returns (r: Outcome)
      requires Valid() && n <= |s| && Shape(St(), b, 0) && o.Unary()
      modifies this, opStack
      ensures Valid() && unchanged(valStack) && valSp == old(valSp)
      ensures Kept(old(St()), b, St())
      ensures r == Pass ==> (Shape(St(), b, 0) &&
        ValuePhase(Context(cfg, fns, env, s), b, St(), n) == PushUnary(Context(cfg, fns, env, s), b, old(St()), o, n))
      ensures r.Fail? ==> PushUnary(Context(cfg, fns, env, s), b, old(St()), o, n) == Err(r.error)
    {
      ghost var st := St();
      r := PushOpStack(o);
      if r == Pass {
        Pushed(st, b, 0, o);
      }
    }

    /** A literal: an identifier, a variable, a system variable or a quoted
        token; any other first character is illegal. */
    method LiteralStep(cfg: Config, fns: OpFns, env: Env, ghost s: string, tok: string, ghost n: nat, ghost b: Base) returns (r: Outcome)
      requires Valid() && n <= |s| && Shape(St(), b, 0) && ValueToken(tok)
      modifies this, valStack
      ensures Valid() && unchanged(opStack) && opSp == old(opSp)
      ensures Kept(old(St()), b, St())
      ensures r == Pass ==> (Shape(St(), b, 1) &&
        OperatorPhase(Context(cfg, fns, env, s), b, St(), n) == Literal(Context(cfg, fns, env, s), b, old(St()), tok, n))
      ensures r.Fail? ==> Literal(Context(cfg, fns, env, s), b, old(St()), tok, n) == Err(r.error)
    {
      ghost var st := St();
      if !IsId(tok[0]) && tok[0] != '$' && tok[0] != '"' && tok[0] != '\'' {
        return Fail(IllegalChar);
      }
      var v, nc := MakeValue(tok, cfg, env);
      if nc {
        nonconst := true;
      }
      if v.Err? {
        return Fail(v.error);
      }
      r := PushStep(cfg, fns, env, s, v.value, n, b);
    }

    /** A value is pushed on the value stack. */
    method PushStep(ghost cfg: Config, ghost fns: OpFns, ghost env: Env, ghost s: string, v: Value, ghost n: nat, ghost b: Base) returns (r: Outcome)
      requires Valid() && n <= |s| && Shape(St(), b, 0)
      modifies this, valStack
      ensures Valid() && unchanged(opStack) && opSp == old(opSp) && nonconst == old(nonconst)
      ensures Kept(old(St()), b, St())
      ensures r == Pass ==> (Shape(St(), b, 1) &&
        OperatorPhase(Context(cfg, fns, env, s), b, St(), n) == EvalSpec.PushValue(Context(cfg, fns, env, s), b, old(St()), v, n))
      ensures r.Fail? ==> EvalSpec.PushValue(Context(cfg, fns, env, s), b, old(St()), v, n) == Err(r.error)
    {
      ghost var st := St();
      r := PushValStack(v);
      if r == Pass {
        Grew(st, b, 0, St());
      }
    }

    /** A function call whose name token has been read, up to and including
        its `)`: the arguments are nested expressions separated by `,`. */
    method CallFunction(cfg: Config, fns: OpFns, env: Env, s: string, name: string, n: nat, ghost b: Base) returns (r: Outcome, next: nat)
      requires Valid() && n <= |s| && FuncTable(env) && Shape(St(), b, 0) && NulFree(name)
      modifies this, opStack, valStack, buf.Repr
      ensures Valid() && fresh(buf.Repr - old(buf.Repr))
      ensures Kept(old(St()), b, St())
      ensures r == Pass ==> (n <= next <= |s| && Shape(St(), b, 1) &&
        OperatorPhase(Context(cfg, fns, env, s), b, St(), next) == Call(Context(cfg, fns, env, s), b, old(St()), name, n))
      ensures r.Fail? && r.error != NoMem ==> Call(Context(cfg, fns, env, s), b, old(St()), name, n) == Err(r.error)
      decreases |s| - n, 5
    {
      var f := FindFunc(name, env.funcs);
      buf.Free();
      var p := PeekChar(cfg, s, n);
      if p == ')' {
        r, next := NoArgsCall(cfg, fns, env, s, f, name, n, b);
      } else {
        r, next := ArgsCall(cfg, fns, env, s, f, name, n, b);
      }
    }

    /** A call written `name()`: the function is called with no arguments
        and the `)` is read afterwards. */
    method NoArgsCall(cfg: Config, fns: OpFns, env: Env, s: string, f: Option<BuiltinFunc>, name: string, n: nat, ghost b: Base) returns (r: Outcome, next: nat)
      requires Valid() && n <= |s| && Shape(St(), b, 0)
      modifies this, valStack, buf.Repr
      ensures Valid() && fresh(buf.Repr - old(buf.Repr))
      ensures Kept(old(St()), b, St())
      ensures r == Pass ==> (n <= next <= |s| && Shape(St(), b, 1) &&
        OperatorPhase(Context(cfg, fns, env, s), b, St(), next) == NoArgs(Context(cfg, fns, env, s), b, old(St()), f, name, n))
      ensures r.Fail? && r.error != NoMem ==> NoArgs(Context(cfg, fns, env, s), b, old(St()), f, name, n) == Err(r.error)
    {
      ghost var st0 := St();
      r := Invoke(env, f, name, 0);
      if r != Pass {
        return r, n;
      }
      assert St().vals[..|st0.vals|] == st0.vals;
      Grew(st0, b, 0, St());
      r, next := ParseExprToken(buf, cfg, s, n);
    }

    /** The argument loop of a call: each argument is evaluated in turn; a
        `,` leads to the next one and a `)` ends the list and calls the
        function. */
    method ArgsCall(cfg: Config, fns: OpFns, env: Env, s: string, f: Option<BuiltinFunc>, name: string, n: nat, ghost b: Base) returns (r: Outcome, next: nat)
      requires Valid() && n <= |s| && FuncTable(env) && Shape(St(), b, 0)
      modifies this, opStack, valStack, buf.Repr
      ensures Valid() && fresh(buf.Repr - old(buf.Repr))
      ensures Kept(old(St()), b, St())
      ensures r == Pass ==> (n <= next <= |s| && Shape(St(), b, 1) &&
        OperatorPhase(Context(cfg, fns, env, s), b, St(), next) == Args(Context(cfg, fns, env, s), b, old(St()), f, name, 0, n))
      ensures r.Fail? && r.error != NoMem ==> Args(Context(cfg, fns, env, s), b, old(St()), f, name, 0, n) == Err(r.error)
      decreases |s| - n, 4
    {
      ghost var c := Context(cfg, fns, env, s);
      ghost var st0 := St();
      ghost var goal := Args(c, b, st0, f, name, 0, n);
      var args := 0;
      var i := n;
      while true
        invariant Valid() && fresh(buf.Repr - old(buf.Repr)) && n <= i <= |s|
        invariant Shape(St(), b, args) && Kept(st0, b, St())
        invariant goal == Args(c, b, St(), f, name, args, i)
        decreases |s| - i
      {
        ghost var st := St();
        var last;
        r, next, last := Argument(cfg, fns, env, s, f, name, args, i, b);
        KeptTrans(st0, b, st, St());
        if r != Pass {
          return;
        }
        args := args + 1;
        if last {
          break;
        }
        i := next;
      }
      r := InvokeCall(cfg, fns, env, s, f, name, args, next, b);
    }

    /** One argument of a call and the `,` or `)` after it (`last`);
        anything else is E_EXPECT_COMMA. */
    method Argument(cfg: Config, fns: OpFns, env: Env, s: string, f: Option<BuiltinFunc>, name: string, args: nat, i: nat, ghost b: Base)
      returns (r: Outcome, next: nat, last: bool)
      requires Valid() && i <= |s| && FuncTable(env) && Shape(St(), b, args)
      modifies this, opStack, valStack, buf.Repr
      ensures Valid() && fresh(buf.Repr - old(buf.Repr))
      ensures Kept(old(St()), b, St())
      ensures r == Pass ==> (i < next <= |s| && Shape(St(), b, args + 1))
      ensures r == Pass && last ==>
        Invoked(Context(cfg, fns, env, s), b, St(), f, name, args + 1, next) == Args(Context(cfg, fns, env, s), b, old(St()), f, name, args, i)
      ensures r == Pass && !last ==>
        Args(Context(cfg, fns, env, s), b, St(), f, name, args + 1, next) == Args(Context(cfg, fns, env, s), b, old(St()), f, name, args, i)
      ensures r.Fail? && r.error != NoMem ==> Args(Context(cfg, fns, env, s), b, old(St()), f, name, args, i) == Err(r.error)
      decreases |s| - i, 3
    {
      ghost var st := St();
      r, next := Evaluate(cfg, fns, env, s, i);
      KeptWeaken(st, Base(|st.ops|, |st.vals|), b, St());
      if r != Pass {
        return r, next, false;
      }
      Nested(Context(cfg, fns, env, s), st, b, args, Done(St(), next, buf.Contents()));
      var h := At(buf.Contents(), 0);
      if h == ')' {
        return Pass, next, true;
      } else if h != ',' {
        buf.Free();
        return Fail(ExpectComma), next, false;
      }
      return Pass, next, false;
    }

    /** The call after its last argument: the arguments are replaced by the
        function's result. */
    method InvokeCall(cfg: Config, fns: OpFns, env: Env, ghost s: string, f: Option<BuiltinFunc>, name: string, args: nat, n: nat, ghost b: Base) returns (r: Outcome)
      requires Valid() && n <= |s| && Shape(St(), b, args) && args >= 1
      modifies this, valStack, buf.Repr
      ensures Valid() && fresh(buf.Repr - old(buf.Repr))
      ensures Kept(old(St()), b, St())
      ensures r == Pass ==> (Shape(St(), b, 1) &&
        OperatorPhase(Context(cfg, fns, env, s), b, St(), n) == Invoked(Context(cfg, fns, env, s), b, old(St()), f, name, args, n))
      ensures r.Fail? && r.error != NoMem ==> Invoked(Context(cfg, fns, env, s), b, old(St()), f, name, args, n) == Err(r.error)
    {
      ghost var st := St();
      r := Invoke(env, f, name, args);
      buf.Free();
      if r == Pass {
        Replaced(st, b, args, St());
      }
    }

    /** One pass of `Evaluate` looking for a binary operator or the end of
        the expression (`done`). */
    method OperatorStep(cfg: Config, fns: OpFns, ghost env: Env, s: string, i: nat, opBase: nat, valBase: nat) returns (r: Outcome, next: nat, done: bool)
      requires Valid() && i <= |s| && Shape(St(), Base(opBase, valBase), 1)
      modifies this, valStack, opStack, buf.Repr
      ensures Valid() && fresh(buf.Repr - old(buf.Repr))
      ensures Kept(old(St()), Base(opBase, valBase), St())
      ensures r == Pass && done ==>
        OperatorPhase(Context(cfg, fns, env, s), Base(opBase, valBase), old(St()), i) == Ok(Done(St(), next, buf.Contents()))
      ensures r == Pass && !done ==> (i < next <= |s| && Shape(St(), Base(opBase, valBase), 0) &&
        ValuePhase(Context(cfg, fns, env, s), Base(opBase, valBase), St(), next) ==
        OperatorPhase(Context(cfg, fns, env, s), Base(opBase, valBase), old(St()), i))
      ensures r.Fail? && r.error != NoMem ==>
        OperatorPhase(Context(cfg, fns, env, s), Base(opBase, valBase), old(St()), i) == Err(r.error)
    {
      r, next := ParseExprToken(buf, cfg, s, i);
      if r != Pass {
        return r, next, false;
      }
      var tok := buf.Contents();
      if tok == [] || tok[0] == ',' || tok[0] == ']' || tok[0] == ')' {
        r := EndStep(cfg, fns, env, s, tok, next, opBase, valBase);
        return r, next, true;
      }
      r := InfixStep(cfg, fns, env, s, tok, next, opBase, valBase);
      return r, next, false;
    }

    /** The end of the expression: the stacked operators are applied, and
        exactly one value must be left above the base (else E_STACK_ERR). */
    method EndStep(cfg: Config, fns: OpFns, ghost env: Env, ghost s: string, ghost tok: string, ghost n: nat, opBase: nat, valBase: nat) returns (r: Outcome)
      requires Valid() && n <= |s| && Shape(St(), Base(opBase, valBase), 1) && Terminator(tok) && buf.Contents() == tok
      requires tok != [] ==> |tok| == 1 && 0 < n && s[n - 1] == tok[0]
      requires tok == [] ==> At(s, n) == NUL
      modifies this, valStack, opStack, buf.Repr
      ensures Valid() && fresh(buf.Repr - old(buf.Repr))
      ensures Kept(old(St()), Base(opBase, valBase), St())
      ensures Exactly(End(Context(cfg, fns, env, s), Base(opBase, valBase), old(St()), tok, n), r, Done(St(), n, buf.Contents()))
    {
      r := DrainStack(fns, opBase, valBase);
      if r != Pass {
        buf.Free();
        return;
      }
      if valSp != valBase + 1 {
        buf.Free();
        return Fail(StackErr);
      }
      return Pass;
    }

    /** A token that must be a binary operator. */
    method InfixStep(cfg: Config, fns: OpFns, ghost env: Env, ghost s: string, tok: string, ghost n: nat, opBase: nat, valBase: nat) returns (r: Outcome)
      requires Valid() && n <= |s| && Shape(St(), Base(opBase, valBase), 1) && NulFree(tok)
      modifies this, valStack, opStack, buf.Repr
      ensures Valid() && fresh(buf.Repr - old(buf.Repr))
      ensures Kept(old(St()), Base(opBase, valBase), St())
      ensures r == Pass ==> (Shape(St(), Base(opBase, valBase), 0) &&
        ValuePhase(Context(cfg, fns, env, s), Base(opBase, valBase), St(), n) ==
        Infix(Context(cfg, fns, env, s), Base(opBase, valBase), old(St()), tok, n))
      ensures r.Fail? ==> Infix(Context(cfg, fns, env, s), Base(opBase, valBase), old(St()), tok, n) == Err(r.error)
    {
      BinOpsSorted();
      var o := FindOperator(tok, BinOps);
      buf.Free();
      if o.None? {
        return Fail(ExpectingBinop);
      }
      BinOpsBinary();
      r := BinaryStep(cfg, fns, env, s, o.value, n, opBase, valBase);
    }

    /** A binary operator: the stacked operators of at least its precedence
        are applied, then it is stacked itself. */
    method BinaryStep(cfg: Config, fns: OpFns, ghost env: Env, ghost s: string, o: Operator, ghost n: nat, opBase: nat, valBase: nat) returns (r: Outcome)
      requires Valid() && n <= |s| && Shape(St(), Base(opBase, valBase), 1) && !o.Unary()
      modifies this, valStack, opStack
      ensures Valid()
      ensures Kept(old(St()), Base(opBase, valBase), St())
      ensures r == Pass ==> (Shape(St(), Base(opBase, valBase), 0) &&
        ValuePhase(Context(cfg, fns, env, s), Base(opBase, valBase), St(), n) ==
        Binary(Context(cfg, fns, env, s), Base(opBase, valBase), old(St()), o, n))
      ensures r.Fail? ==> Binary(Context(cfg, fns, env, s), Base(opBase, valBase), old(St()), o, n) == Err(r.error)
    {
      ghost var b := Base(opBase, valBase);
      ghost var st := St();
      r := ReduceStack(fns, opBase, valBase, o.prec);
      if r != Pass {
        return;
      }
      ghost var st1 := St();
      r := PushOpStack(o);
      if r == Pass {
        Pushed(st1, b, 1, o);
        KeptTrans(st, b, st1, St());
      }
    }

    /** `Evaluate`: alternates between looking for a value and looking for
        an operator until the expression ends, with the stack bases at the
        pointers on entry.  Nothing below the bases is touched, on any
        path. */
    method Evaluate(cfg: Config, fns: OpFns, env: Env, s: string, cur: nat) returns (r: Outcome, next: nat)
      requires Valid() && cur <= |s| && FuncTable(env)
      modifies this, opStack, valStack, buf.Repr
      ensures Valid() && fresh(buf.Repr - old(buf.Repr))
      ensures Kept(old(St()), Base(old(opSp), old(valSp)), St())
      ensures Agrees(EvalSpec.Evaluate(Context(cfg, fns, env, s), old(St()), cur), r, Done(St(), next, buf.Contents()))
      decreases |s| - cur, 2
    {
      var opBase: nat, valBase: nat := opSp, valSp;
      ghost var c := Context(cfg, fns, env, s);
      ghost var b := Base(opBase, valBase);
      ghost var st0 := St();
      assert st0.ops[|st0.ops|..] == [];
      var i := cur;
      var wantValue := true;
      while true
        invariant Valid() && fresh(buf.Repr - old(buf.Repr)) && cur <= i <= |s|
        invariant Shape(St(), b, if wantValue then 0 else 1) && Kept(st0, b, St())
        invariant EvalSpec.Evaluate(c, st0, cur) == Resume(c, b, St(), i, wantValue)
        decreases |s| - i
      {
        ghost var st := St();
        if wantValue {
          r, next, wantValue := ValueStep(cfg, fns, env, s, i, b);
          KeptTrans(st0, b, st, St());
          if r != Pass {
            return;
          }
        } else {
          var done;
          r, next, done := OperatorStep(cfg, fns, env, s, i, opBase, valBase);
          KeptTrans(st0, b, st, St());
          if r != Pass || done {
            return;
          }
          wantValue := true;
        }
        i := next;
      }
    }

    /** `EvalExpr`: evaluates the expression at `cur` with the operator
        functions of the table. */
    method EvalExpr(cfg: Config, env: Env, s: string, cur: nat) returns (r: Outcome, v: Value, next: int)
      requires Valid() && cur <= |s| && FuncTable(env)
      modifies this, opStack, valStack, buf.Repr
      ensures Valid() && fresh(buf.Repr - old(buf.Repr)) && buf.Contents() == []
      ensures opSp == old(opSp) && valSp == old(valSp)
      ensures opStack[..opSp] == old(opStack[..opSp]) && valStack[..valSp] == old(valStack[..valSp])
      ensures r == Pass ==> (next >= 0 &&
        EvalSpec.EvalExpr(Context(cfg, Standard(cfg), env, s), old(St()), cur) == Ok(Evaluated(v, nonconst, next as nat)))
      ensures r.Fail? && r.error != NoMem ==> EvalSpec.EvalExpr(Context(cfg, Standard(cfg), env, s), old(St()), cur) == Err(r.error)
    {
      r, v, next := EvalWith(cfg, Standard(cfg), env, s, cur);
    }

    /** `EvalExpr` for any operator functions.  The stack pointers
        are restored on every path; on success the value left at the old
        value-stack top is handed over and its slot marked as an error
        value, and the input is left on the character that ended the
        expression. */
    method EvalWith(cfg: Config, fns: OpFns, env: Env, s: string, cur: nat) returns (r: Outcome, v: Value, next: int)
      requires Valid() && cur <= |s| && FuncTable(env)
      modifies this, opStack, valStack, buf.Repr
      ensures Valid() && fresh(buf.Repr - old(buf.Repr)) && buf.Contents() == []
      ensures opSp == old(opSp) && valSp == old(valSp)
      ensures opStack[..opSp] == old(opStack[..opSp]) && valStack[..valSp] == old(valStack[..valSp])
      ensures r == Pass ==> (next >= 0 &&
        EvalSpec.EvalExpr(Context(cfg, fns, env, s), old(St()), cur) == Ok(Evaluated(v, nonconst, next as nat)))
      ensures r.Fail? && r.error != NoMem ==> EvalSpec.EvalExpr(Context(cfg, fns, env, s), old(St()), cur) == Err(r.error)
    {
      var oldOp, oldVal := opSp, valSp;
      v := ErrV;
      var at;
      r, at := Evaluate(cfg, fns, env, s, cur);
      ghost var term := buf.Contents();
      next := at;
      if buf.len > 0 {
        next := next - 1;
      }
      buf.Free();
      if r != Pass {
        CleanStack(oldOp, oldVal);
        return;
      }
      v := TakeResult(oldOp, oldVal);
    }
  }
}
