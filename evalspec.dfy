/** The operator-precedence evaluator (`Evaluate`, `EvalExpr`) as functions
    on the two stacks.  `Evaluate` alternates between looking for a value
    (a literal, a variable, a parenthesised expression, a function call, or
    a unary operator in front of one) and looking for a binary operator or
    the end of the expression; operators wait on the operator stack until
    one of lower precedence, or the end, arrives.

    The central fact is `Shape`: above the stack bases of an `Evaluate`
    call there are as many values as binary operators while a value is
    expected, and one more while an operator is expected.  From it follows
    that every operator finds its operands, that each `Evaluate` leaves
    exactly one value above its base and nothing else changed, and that
    the E_STACK_ERR check never fires. */
module EvalSpec {
  import opened Errors
  import opened Chars
  import opened Values
  import opened Literals
  import opened Ops
  import opened Tables
  import opened Tokens

  /** The operator stack, the value stack and the `nonconst_expr` flag of
      the parse. */
  datatype State = State(ops: seq<Operator>, vals: seq<Value>, nonconst: bool)

  /** `OpBase` and `ValBase` of an `Evaluate` call. */
  datatype Base = Base(op: nat, val: nat)

  /** A successful `Evaluate`: the stacks, the position after the token that
      ended the expression, and that token. */
  datatype Done = Done(st: State, cur: nat, term: string)

  /** The configuration, the operator functions, the input, and the stack
      sizes OP_STACK_SIZE and VAL_STACK_SIZE. */
  datatype Ctx = Ctx(cfg: Config, fns: OpFns, env: Env, s: string, opSize: nat, valSize: nat)

  predicate Room(c: Ctx, st: State) {
    |st.ops| <= c.opSize && |st.vals| <= c.valSize
  }

  /** The number of binary operators on an operator stack. */
  function Binaries(ops: seq<Operator>): nat {
    if ops == [] then 0
    else Binaries(ops[..|ops| - 1]) + (if ops[|ops| - 1].Unary() then 0 else 1)
  }

  /** Above the base, `extra` more values than binary operators. */
  predicate Shape(st: State, b: Base, extra: nat) {
    b.op <= |st.ops| && b.val <= |st.vals| &&
    |st.vals| - b.val == Binaries(st.ops[b.op..]) + extra
  }

  /** `r` has what `st` has below the base. */
  predicate Kept(st: State, b: Base, r: State) {
    b.op <= |st.ops| && b.val <= |st.vals| && b.op <= |r.ops| && b.val <= |r.vals| &&
    r.ops[..b.op] == st.ops[..b.op] && r.vals[..b.val] == st.vals[..b.val]
  }

  /** A token that ends an expression: the end of the input, `,`, `]` or `)`. */
  predicate Terminator(t: string) {
    t == [] || t[0] == ',' || t[0] == ']' || t[0] == ')'
  }

  /** What a phase that returns leaves behind: its base untouched, one value
      above the base and no operator, and the terminator read. */
  predicate Finished(c: Ctx, st: State, b: Base, d: Done) {
    Kept(st, b, d.st) && |d.st.ops| == b.op && |d.st.vals| == b.val + 1 &&
    Room(c, d.st) && d.cur <= |c.s| && Terminator(d.term) &&
    (d.term != [] ==> |d.term| == 1 && 0 < d.cur && c.s[d.cur - 1] == d.term[0]) &&
    (d.term == [] ==> At(c.s, d.cur) == NUL)
  }

  /** The function of a unary operator. */
  function UnaryFn(code: OpCode, v: Value): Result<Value> {
    if code == OpNot then LogNot(v) else UnMinus(v)
  }

  /** The function of a binary operator. */
  function BinaryFn(cfg: Config, code: OpCode, a: Value, b: Value): Result<Value> {
    match code
    case OpNe => Compare(NE, a, b)
    case OpMod => Mod(a, b)
    case OpAnd => LogAnd(a, b)
    case OpMul => Multiply(a, b)
    case OpAdd => Add(cfg, a, b)
    case OpSub => Subtract(a, b)
    case OpDiv => Divide(a, b)
    case OpLt => Compare(LT, a, b)
    case OpLe => Compare(LE, a, b)
    case OpEq => Compare(EQ, a, b)
    case OpGt => Compare(GT, a, b)
    case OpGe => Compare(GE, a, b)
    case OpOr => LogOr(a, b)
    case OpNot => LogNot(b)
    case OpNeg => UnMinus(b)
  }

  /** The `func` pointers of the operator table: what the operator with a
      given code computes from its operand, or from its left and right
      operands.  The evaluator is proved for any such functions;
      `Standard` holds the ones the table points to. */
  datatype OpFns = OpFns(unary: (OpCode, Value) -> Result<Value>, binary: (OpCode, Value, Value) -> Result<Value>)

  function Standard(cfg: Config): OpFns {
    OpFns((code, v) => UnaryFn(code, v), (code, a, b) => BinaryFn(cfg, code, a, b))
  }

  /** `(op.func)()` on the value stack: a unary operator replaces the top
      value; a binary one pops the right operand, then the left one
      (E_VA_STK_UNDER on an empty stack), and pushes the result. */
  function Apply(fns: OpFns, op: Operator, st: State): (r: Result<State>)
    requires op.Unary() ==> |st.vals| > 0
    ensures r.Ok? ==> r.value.ops == st.ops && r.value.nonconst == st.nonconst
    ensures r.Ok? && op.Unary() ==> |r.value.vals| == |st.vals| && r.value.vals[..|st.vals| - 1] == st.vals[..|st.vals| - 1]
    ensures r.Ok? && !op.Unary() ==> |st.vals| >= 2 && |r.value.vals| == |st.vals| - 1 && r.value.vals[..|st.vals| - 2] == st.vals[..|st.vals| - 2]
  {
    var n := |st.vals|;
    if op.Unary() then
      match fns.unary(op.code, st.vals[n - 1])
      case Err(e) => Err(e)
      case Ok(v) => Ok(st.(vals := st.vals[..n - 1] + [v]))
    else if n < 2 then Err(ValStackUnder)
    else
      match fns.binary(op.code, st.vals[n - 2], st.vals[n - 1])
      case Err(e) => Err(e)
      case Ok(v) => Ok(st.(vals := st.vals[..n - 2] + [v]))
  }

  /** The operator stack without its top. */
  function PopOp(st: State): State
    requires |st.ops| > 0
  {
    st.(ops := st.ops[..|st.ops| - 1])
  }

  /** Popping and applying the top operator keeps the shape, and an
      operator always has its operands. */
  lemma ApplyTop(fns: OpFns, st: State, b: Base, extra: nat)
    requires Shape(st, b, extra) && extra >= 1 && |st.ops| > b.op
    ensures var op := st.ops[|st.ops| - 1]; var p := PopOp(st);
      |p.vals| > 0 && (!op.Unary() ==> |st.vals| >= b.val + 2) &&
      (var r := Apply(fns, op, p); r.Ok? ==> Shape(r.value, b, extra) && Kept(st, b, r.value))
  {
    var ops := st.ops;
    var op := ops[|ops| - 1];
    BinariesPop(ops, b.op);
    var p := PopOp(st);
    assert p.ops[..b.op] == ops[..b.op];
    if op.Unary() {
      var r := Apply(fns, op, p);
      if r.Ok? {
        assert r.value.vals[..b.val] == r.value.vals[..|st.vals| - 1][..b.val];
      }
    } else {
      var r := Apply(fns, op, p);
      if r.Ok? {
        assert r.value.vals[..b.val] == r.value.vals[..|st.vals| - 2][..b.val];
      }
    }
  }

  /** Counting binary operators above a base, with and without the top. */
  lemma BinariesPop(ops: seq<Operator>, k: nat)
    requires k < |ops|
    ensures Binaries(ops[k..]) == Binaries(ops[..|ops| - 1][k..]) + (if ops[|ops| - 1].Unary() then 0 else 1)
  {
    assert ops[k..][..|ops[k..]| - 1] == ops[..|ops| - 1][k..];
  }

  /** Pushing an operator counts it. */
  lemma BinariesPush(ops: seq<Operator>, k: nat, o: Operator)
    requires k <= |ops|
    ensures Binaries((ops + [o])[k..]) == Binaries(ops[k..]) + (if o.Unary() then 0 else 1)
  {
    BinariesPop(ops + [o], k);
    assert (ops + [o])[..|ops|] == ops;
  }

  /** The loop at the end of an expression: pops and applies every operator
      above the base.  By `Shape`, one value is then left above the base. */
  function Drain(fns: OpFns, st: State, b: Base): (r: Result<State>)
    requires Shape(st, b, 1)
    ensures r.Ok? ==> Kept(st, b, r.value) && |r.value.ops| == b.op && |r.value.vals| == b.val + 1
    ensures r.Ok? ==> r.value.nonconst == st.nonconst
    decreases |st.ops|
  {
    if |st.ops| == b.op then
      assert st.ops[b.op..] == [];
      Ok(st)
    else
      ApplyTop(fns, st, b, 1);
      match Apply(fns, st.ops[|st.ops| - 1], PopOp(st))
      case Err(e) => Err(e)
      case Ok(st1) => Drain(fns, st1, b)
  }

  /** One round of `Drain`, for the loop that computes it. */
  lemma DrainStep(fns: OpFns, st: State, b: Base, r: Result<State>)
    requires Shape(st, b, 1) && |st.ops| > b.op && |st.vals| > b.val
    requires r == Apply(fns, st.ops[|st.ops| - 1], PopOp(st))
    ensures r.Err? ==> Drain(fns, st, b) == Err(r.error)
    ensures r.Ok? ==> Shape(r.value, b, 1) && Kept(st, b, r.value) && Drain(fns, st, b) == Drain(fns, r.value, b)
  {
    ApplyTop(fns, st, b, 1);
  }

  /** The operator on top, above the base, binds at least as tightly as
      `prec`. */
  predicate Binds(st: State, b: Base, prec: int) {
    |st.ops| > b.op && st.ops[|st.ops| - 1].prec >= prec
  }

  /** The loop before pushing a binary operator: pops and applies the
      operators above the base whose precedence is at least `prec`. */
  function Reduce(fns: OpFns, st: State, b: Base, prec: int): (r: Result<State>)
    requires Shape(st, b, 1)
    ensures r.Ok? ==> Kept(st, b, r.value) && Shape(r.value, b, 1) && |r.value.ops| <= |st.ops|
    ensures r.Ok? ==> r.value.nonconst == st.nonconst && |r.value.vals| <= |st.vals|
    ensures r.Ok? ==> !Binds(r.value, b, prec)
    decreases |st.ops|
  {
    if Binds(st, b, prec) then
      ApplyTop(fns, st, b, 1);
      match Apply(fns, st.ops[|st.ops| - 1], PopOp(st))
      case Err(e) => Err(e)
      case Ok(st1) => Reduce(fns, st1, b, prec)
    else
      Ok(st)
  }

  /** One round of `Reduce`, for the loop that computes it. */
  lemma ReduceStep(fns: OpFns, st: State, b: Base, prec: int, r: Result<State>)
    requires Shape(st, b, 1) && Binds(st, b, prec) && |st.vals| > b.val
    requires r == Apply(fns, st.ops[|st.ops| - 1], PopOp(st))
    ensures r.Err? ==> Reduce(fns, st, b, prec) == Err(r.error)
    ensures r.Ok? ==> Shape(r.value, b, 1) && Kept(st, b, r.value) && Reduce(fns, st, b, prec) == Reduce(fns, r.value, b, prec)
  {
    ApplyTop(fns, st, b, 1);
  }

  /** `Reduce` stops once the operator on top binds less tightly than
      `prec`, or none is left above the base. */
  lemma ReduceDone(fns: OpFns, st: State, b: Base, prec: int)
    requires Shape(st, b, 1) && !Binds(st, b, prec)
    ensures Reduce(fns, st, b, prec) == Ok(st)
  {
  }

  /** `CallFunc` or `CallUserFunc` with the top `nargs` values as the
      arguments: they are replaced by the result.  A non-constant built-in
      marks the expression non-constant. */
  function Invoke(env: Env, valSize: nat, st: State, f: Option<BuiltinFunc>, name: string, nargs: nat): (r: Result<State>)
    requires nargs <= |st.vals|
    ensures r.Ok? ==> r.value.ops == st.ops && |r.value.vals| == |st.vals| - nargs + 1
    ensures r.Ok? ==> r.value.vals[..|st.vals| - nargs] == st.vals[..|st.vals| - nargs]
    ensures r.Ok? && |st.vals| <= valSize ==> |r.value.vals| <= valSize
    ensures r.Ok? ==> (r.value.nonconst <==> st.nonconst || (f.Some? && !f.value.isConstant))
  {
    var flag := st.nonconst || (f.Some? && !f.value.isConstant);
    var n := |st.vals|;
    var args := st.vals[n - nargs..];
    var res := if f.Some? then env.callFunc(f.value, args) else env.callUserFunc(name, args);
    match res
    case Err(e) => Err(e)
    case Ok(v) =>
      if nargs == 0 && n >= valSize then Err(ValStackOver)
      else Ok(State(st.ops, st.vals[..n - nargs] + [v], flag))
  }

  /** `Evaluate`: the expression starting at `cur`, with the bases at the
      current stack tops. */
  function Evaluate(c: Ctx, st: State, cur: nat): (r: Result<Done>)
    requires cur <= |c.s| && Room(c, st)
    ensures r.Ok? ==> Finished(c, st, Base(|st.ops|, |st.vals|), r.value) && cur < r.value.cur
    decreases |c.s| - cur, 2
  {
    assert st.ops[|st.ops|..] == [];
    ValuePhase(c, Base(|st.ops|, |st.vals|), st, cur)
  }

  /** The part of `Evaluate` that looks for a value: a parenthesised
      expression, a unary `+` (skipped), a function call, a unary operator
      or a literal. */
  function ValuePhase(c: Ctx, b: Base, st: State, cur: nat): (r: Result<Done>)
    requires cur <= |c.s| && Room(c, st) && Shape(st, b, 0)
    ensures r.Ok? ==> Finished(c, st, b, r.value) && cur < r.value.cur
    ensures Lex(c.cfg, c.s, cur).Ok? && Lex(c.cfg, c.s, cur).value.text == [] ==> r == Err(Eoln)
    decreases |c.s| - cur, 1
  {
    match Lex(c.cfg, c.s, cur)
    case Err(e) => Err(e)
    case Ok(Token(tok, n)) =>
      if tok == [] then Err(Eoln)
      else Operand(c, b, st, tok, n)
  }

  /** What a token read where a value is expected starts: a parenthesised
      expression, a unary plus (skipped), a function call, or a unary
      operator or literal. */
  function Operand(c: Ctx, b: Base, st: State, tok: string, n: nat): (r: Result<Done>)
    requires n <= |c.s| && Room(c, st) && Shape(st, b, 0) && ValueToken(tok)
    ensures r.Ok? ==> Finished(c, st, b, r.value) && n <= r.value.cur
    decreases |c.s| - n, 5
  {
    if tok[0] == '(' then Paren(c, b, st, n)
    else if tok[0] == '+' then ValuePhase(c, b, st, n)
    else if tok[|tok| - 1] == '(' then Call(c, b, st, tok[..|tok| - 1], n)
    else Prefix(c, b, st, tok, n)
  }

  /** A unary operator or a literal. */
  function Prefix(c: Ctx, b: Base, st: State, tok: string, n: nat): (r: Result<Done>)
    requires n <= |c.s| && Room(c, st) && Shape(st, b, 0) && ValueToken(tok)
    ensures r.Ok? ==> Finished(c, st, b, r.value) && n <= r.value.cur
    decreases |c.s| - n, 4
  {
    match Lookup(UnOps, tok)
    case Some(o) =>
      UnOpsUnary();
      PushUnary(c, b, st, o, n)
    case None => Literal(c, b, st, tok, n)
  }

  /** A parenthesised expression: a nested `Evaluate` that must end in `)`. */
  function Paren(c: Ctx, b: Base, st: State, n: nat): (r: Result<Done>)
    requires n <= |c.s| && Room(c, st) && Shape(st, b, 0)
    ensures r.Ok? ==> Finished(c, st, b, r.value) && n <= r.value.cur
    ensures Evaluate(c, st, n).Ok? && (Evaluate(c, st, n).value.term == [] || Evaluate(c, st, n).value.term[0] != ')') ==>
      r == Err(MissRightParen)
    decreases |c.s| - n, 3
  {
    match Evaluate(c, st, n)
    case Err(e) => Err(e)
    case Ok(d) =>
      if d.term == [] || d.term[0] != ')' then Err(MissRightParen)
      else
        Nested(c, st, b, 0, d);
        var r := OperatorPhase(c, b, d.st, d.cur);
        Chain(c, st, b, d.st, r);
        r
  }

  /** A unary operator waits on the operator stack; a value is still
      expected. */
  function PushUnary(c: Ctx, b: Base, st: State, o: Operator, n: nat): (r: Result<Done>)
    requires n <= |c.s| && Room(c, st) && Shape(st, b, 0) && o.Unary()
    ensures r.Ok? ==> Finished(c, st, b, r.value) && n <= r.value.cur
    ensures |st.ops| >= c.opSize ==> r == Err(OpStackOver)
    decreases |c.s| - n, 2
  {
    if |st.ops| >= c.opSize then Err(OpStackOver)
    else
      var st1 := st.(ops := st.ops + [o]);
      Pushed(st, b, 0, o);
      var r := ValuePhase(c, b, st1, n);
      Chain(c, st, b, st1, r);
      r
  }

  /** A literal, variable or system variable: an identifier or a quoted
      token becomes a value on the value stack; any other character is
      illegal here. */
  function Literal(c: Ctx, b: Base, st: State, tok: string, n: nat): (r: Result<Done>)
    requires n <= |c.s| && Room(c, st) && Shape(st, b, 0) && ValueToken(tok)
    ensures r.Ok? ==> Finished(c, st, b, r.value) && n <= r.value.cur
    ensures !IsId(tok[0]) && tok[0] != '$' && tok[0] != '"' && tok[0] != '\'' ==> r == Err(IllegalChar)
    ensures IsId(tok[0]) && MakeLiteral(tok, c.cfg, c.env).Err? ==> r == Err(MakeLiteral(tok, c.cfg, c.env).error)
    decreases |c.s| - n, 3
  {
    if !IsId(tok[0]) && tok[0] != '$' && tok[0] != '"' && tok[0] != '\'' then Err(IllegalChar)
    else
      match MakeLiteral(tok, c.cfg, c.env)
      case Err(e) => Err(e)
      case Ok(v) => PushValue(c, b, st.(nonconst := st.nonconst || MarksNonConst(tok)), v, n)
  }

  /** A value pushed on the value stack (failing with E_VA_STK_OVER when it
      is full), after which an operator or the end is expected. */
  function PushValue(c: Ctx, b: Base, st: State, v: Value, n: nat): (r: Result<Done>)
    requires n <= |c.s| && Room(c, st) && Shape(st, b, 0)
    ensures r.Ok? ==> Finished(c, st, b, r.value) && n <= r.value.cur
    ensures |st.vals| >= c.valSize ==> r == Err(ValStackOver)
    decreases |c.s| - n, 2
  {
    if |st.vals| >= c.valSize then Err(ValStackOver)
    else
      var st1 := st.(vals := st.vals + [v]);
      Grew(st, b, 0, st1);
      var r := OperatorPhase(c, b, st1, n);
      Chain(c, st, b, st1, r);
      r
  }

  /** A function call whose name token has been read: no arguments when
      the next character is `)`, otherwise the argument list.  The name is
      looked up among the built-ins in lower case; otherwise it names a
      user-defined function. */
  function Call(c: Ctx, b: Base, st: State, name: string, n: nat): (r: Result<Done>)
    requires n <= |c.s| && Room(c, st) && Shape(st, b, 0)
    ensures r.Ok? ==> Finished(c, st, b, r.value) && n <= r.value.cur
    decreases |c.s| - n, 4
  {
    var f := LookupFunc(c.env.funcs, LowerString(name));
    if At(c.s, SkipBlanks(c.cfg, c.s, n)) == ')' then NoArgs(c, b, st, f, name, n)
    else Args(c, b, st, f, name, 0, n)
  }

  /** A call without arguments; the `)` is read after the call. */
  function NoArgs(c: Ctx, b: Base, st: State, f: Option<BuiltinFunc>, name: string, n: nat): (r: Result<Done>)
    requires n <= |c.s| && Room(c, st) && Shape(st, b, 0)
    ensures r.Ok? ==> Finished(c, st, b, r.value) && n <= r.value.cur
    decreases |c.s| - n, 2
  {
    match Invoke(c.env, c.valSize, st, f, name, 0)
    case Err(e) => Err(e)
    case Ok(st1) =>
      assert st1.vals[..|st.vals|] == st.vals;
      Grew(st, b, 0, st1);
      match Lex(c.cfg, c.s, n)
      case Err(e) => Err(e)
      case Ok(t) =>
        var r := OperatorPhase(c, b, st1, t.next);
        Chain(c, st, b, st1, r);
        r
  }

  /** The argument loop of a function call: each argument is an
      expression ended by `,` or, for the last one, `)`. */
  function Args(c: Ctx, b: Base, st: State, f: Option<BuiltinFunc>, name: string, nargs: nat, cur: nat): (r: Result<Done>)
    requires cur <= |c.s| && Room(c, st) && Shape(st, b, nargs)
    ensures r.Ok? ==> Finished(c, st, b, r.value) && cur < r.value.cur
    decreases |c.s| - cur, 3
  {
    match Evaluate(c, st, cur)
    case Err(e) => Err(e)
    case Ok(d) =>
      Nested(c, st, b, nargs, d);
      if d.term != [] && d.term[0] == ')' then
        var r := Invoked(c, b, d.st, f, name, nargs + 1, d.cur);
        Chain(c, st, b, d.st, r);
        r
      else if d.term != [] && d.term[0] == ',' then
        var r := Args(c, b, d.st, f, name, nargs + 1, d.cur);
        Chain(c, st, b, d.st, r);
        r
      else Err(ExpectComma)
  }

  /** An argument that ends in anything but `,` or `)` is E_EXPECT_COMMA. */
  lemma ArgsNeedComma(c: Ctx, b: Base, st: State, f: Option<BuiltinFunc>, name: string, nargs: nat, cur: nat)
    requires cur <= |c.s| && Room(c, st) && Shape(st, b, nargs)
    requires Evaluate(c, st, cur).Ok? && Evaluate(c, st, cur).value.term !in {")", ","}
    ensures Args(c, b, st, f, name, nargs, cur) == Err(ExpectComma)
  {
    var d := Evaluate(c, st, cur).value;
    if d.term != [] {
      assert d.term == [d.term[0]];
      assert d.term[0] != ')' && d.term[0] != ',';
    }
  }

  /** The call after its last argument: the arguments are replaced by the
      result, and an operator or the end is expected. */
  function Invoked(c: Ctx, b: Base, st: State, f: Option<BuiltinFunc>, name: string, nargs: nat, n: nat): (r: Result<Done>)
    requires n <= |c.s| && Room(c, st) && Shape(st, b, nargs) && nargs >= 1
    ensures r.Ok? ==> Finished(c, st, b, r.value) && n <= r.value.cur
    decreases |c.s| - n, 2
  {
    match Invoke(c.env, c.valSize, st, f, name, nargs)
    case Err(e) => Err(e)
    case Ok(st1) =>
      Replaced(st, b, nargs, st1);
      var r := OperatorPhase(c, b, st1, n);
      Chain(c, st, b, st1, r);
      r
  }

  /** The part of `Evaluate` that looks for a binary operator or the end. */
  function OperatorPhase(c: Ctx, b: Base, st: State, cur: nat): (r: Result<Done>)
    requires cur <= |c.s| && Room(c, st) && Shape(st, b, 1)
    ensures r.Ok? ==> Finished(c, st, b, r.value) && cur <= r.value.cur
    decreases |c.s| - cur, 1
  {
    match Lex(c.cfg, c.s, cur)
    case Err(e) => Err(e)
    case Ok(Token(tok, n)) =>
      if Terminator(tok) then End(c, b, st, tok, n)
      else Infix(c, b, st, tok, n)
  }

  /** A token that must be a binary operator. */
  function Infix(c: Ctx, b: Base, st: State, tok: string, n: nat): (r: Result<Done>)
    requires n <= |c.s| && Room(c, st) && Shape(st, b, 1)
    ensures r.Ok? ==> Finished(c, st, b, r.value) && n <= r.value.cur
    ensures Lookup(BinOps, tok).None? ==> r == Err(ExpectingBinop)
    decreases |c.s| - n, 3
  {
    match Lookup(BinOps, tok)
    case None => Err(ExpectingBinop)
    case Some(o) =>
      BinOpsBinary();
      Binary(c, b, st, o, n)
  }

  /** The end of the expression: every operator above the base is applied;
      E_STACK_ERR if anything but one value is then left. */
  function End(c: Ctx, b: Base, st: State, tok: string, n: nat): (r: Result<Done>)
    requires n <= |c.s| && Room(c, st) && Shape(st, b, 1) && Terminator(tok)
    requires tok != [] ==> |tok| == 1 && 0 < n && c.s[n - 1] == tok[0]
    requires tok == [] ==> At(c.s, n) == NUL
    ensures r.Ok? ==> Finished(c, st, b, r.value) && n == r.value.cur && r.value.term == tok
    ensures r == Err(StackErr) ==> Drain(c.fns, st, b) == Err(StackErr)
  {
    match Drain(c.fns, st, b)
    case Err(e) => Err(e)
    case Ok(st1) =>
      if |st1.vals| != b.val + 1 then Err(StackErr)
      else Ok(Done(st1, n, tok))
  }

  /** A binary operator: the waiting operators of at least its precedence
      are applied, then it waits itself and a value is expected. */
  function Binary(c: Ctx, b: Base, st: State, o: Operator, n: nat): (r: Result<Done>)
    requires n <= |c.s| && Room(c, st) && Shape(st, b, 1) && !o.Unary()
    ensures r.Ok? ==> Finished(c, st, b, r.value) && n <= r.value.cur
    ensures Reduce(c.fns, st, b, o.prec).Ok? && |Reduce(c.fns, st, b, o.prec).value.ops| >= c.opSize ==> r == Err(OpStackOver)
    decreases |c.s| - n, 2
  {
    match Reduce(c.fns, st, b, o.prec)
    case Err(e) => Err(e)
    case Ok(st1) =>
      if |st1.ops| >= c.opSize then Err(OpStackOver)
      else
        var st2 := st1.(ops := st1.ops + [o]);
        Pushed(st1, b, 1, o);
        KeptTrans(st, b, st1, st2);
        var r := ValuePhase(c, b, st2, n);
        Chain(c, st, b, st2, r);
        r
  }

  /** Where `Evaluate` stands between two tokens: expecting a value, or
      expecting a binary operator or the end. */
  function Resume(c: Ctx, b: Base, st: State, cur: nat, value: bool): Result<Done>
    requires cur <= |c.s| && Room(c, st) && Shape(st, b, if value then 0 else 1)
  {
    if value then ValuePhase(c, b, st, cur) else OperatorPhase(c, b, st, cur)
  }

  /** The result of `EvalExpr`: the value, the `nonconst_expr` flag, and
      the position the input is left at. */
  datatype Evaluated = Evaluated(v: Value, nonconst: bool, cur: nat)

  /** `EvalExpr`: evaluates the expression at `cur`; on success the value
      is the one left above the old stack top, the stacks are as before,
      and the input is left on the character that ended the expression. */
  function EvalExpr(c: Ctx, st: State, cur: nat): (r: Result<Evaluated>)
    requires cur <= |c.s| && Room(c, st)
    ensures r.Ok? ==> cur <= r.value.cur <= |c.s|
    ensures r.Ok? ==> At(c.s, r.value.cur) == NUL || c.s[r.value.cur] in {',', ']', ')'}
  {
    match Evaluate(c, st, cur)
    case Err(e) => Err(e)
    case Ok(d) =>
      var back := if d.term != [] then d.cur - 1 else d.cur;
      Ok(Evaluated(d.st.vals[|st.vals|], d.st.nonconst, back))
  }

  /** Helpers for `Kept` and `Shape`. */
  lemma KeptWeaken(st: State, b1: Base, b2: Base, r: State)
    requires Kept(st, b1, r) && b2.op <= b1.op && b2.val <= b1.val
    ensures Kept(st, b2, r)
  {
    assert r.ops[..b2.op] == r.ops[..b1.op][..b2.op];
    assert st.ops[..b2.op] == st.ops[..b1.op][..b2.op];
    assert r.vals[..b2.val] == r.vals[..b1.val][..b2.val];
    assert st.vals[..b2.val] == st.vals[..b1.val][..b2.val];
  }

  lemma KeptTrans(st: State, b: Base, mid: State, r: State)
    requires Kept(st, b, mid) && Kept(mid, b, r)
    ensures Kept(st, b, r)
  {
  }

  /** What a later phase finishes from `mid`, the phase before it
      finishes from `st`. */
  lemma Chain(c: Ctx, st: State, b: Base, mid: State, r: Result<Done>)
    requires Kept(st, b, mid)
    requires r.Ok? ==> Finished(c, mid, b, r.value)
    ensures r.Ok? ==> Finished(c, st, b, r.value)
  {
  }

  /** An operator pushed above the base. */
  lemma Pushed(st: State, b: Base, extra: nat, o: Operator)
    requires Shape(st, b, extra) && (o.Unary() || extra == 1)
    ensures var r := st.(ops := st.ops + [o]);
      Kept(st, b, r) && Shape(r, b, if o.Unary() then extra else 0)
  {
    var r := st.(ops := st.ops + [o]);
    BinariesPush(st.ops, b.op, o);
    assert r.ops[..b.op] == st.ops[..b.op];
  }

  /** A value pushed above the base. */
  lemma Grew(st: State, b: Base, extra: nat, r: State)
    requires Shape(st, b, extra)
    requires r.ops == st.ops && |r.vals| == |st.vals| + 1 && r.vals[..|st.vals|] == st.vals
    ensures Kept(st, b, r) && Shape(r, b, extra + 1)
  {
    assert r.vals[..b.val] == r.vals[..|st.vals|][..b.val];
  }

  /** A nested `Evaluate` leaves the operators as they were and one more
      value. */
  lemma Nested(c: Ctx, st: State, b: Base, extra: nat, d: Done)
    requires Shape(st, b, extra) && Finished(c, st, Base(|st.ops|, |st.vals|), d)
    ensures d.st.ops == st.ops && Kept(st, b, d.st) && Shape(d.st, b, extra + 1)
  {
    assert d.st.ops == d.st.ops[..|st.ops|];
    assert st.ops == st.ops[..|st.ops|];
    assert d.st.vals[..|st.vals|] == st.vals[..|st.vals|];
    assert st.vals == st.vals[..|st.vals|];
    Grew(st, b, extra, d.st);
  }

  /** A call replaces its `nargs` arguments by one result. */
  lemma Replaced(st: State, b: Base, nargs: nat, r: State)
    requires Shape(st, b, nargs) && nargs >= 1
    requires r.ops == st.ops && |r.vals| == |st.vals| - nargs + 1
    requires r.vals[..|st.vals| - nargs] == st.vals[..|st.vals| - nargs]
    ensures Kept(st, b, r) && Shape(r, b, 1)
  {
    var k := |st.vals| - nargs;
    assert r.vals[..b.val] == r.vals[..k][..b.val];
    assert st.vals[..b.val] == st.vals[..k][..b.val];
  }

  lemma UnOpsUnary()
    ensures forall o :: o in UnOps ==> o.Unary()
  {
  }

  lemma BinOpsBinary()
    ensures forall o :: o in BinOps ==> !o.Unary()
  {
  }
}
