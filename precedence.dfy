/** Precedence and left-associativity on the stacks, with the operator
    functions of the table: the waiting operators of at least the new one's
    precedence are applied before it is pushed, and the end of the
    expression applies the rest from the top down. */
module Precedence {
  import opened Errors
  import opened Values
  import opened Tables
  import opened EvalSpec
  import Ops

  const Minus := Operator("-", 18, OpSub)
  const Plus := Operator("+", 18, OpAdd)
  const Times := Operator("*", 20, OpMul)

  /** The three operators of the examples are the table's entries under
      their names. */
  lemma TableOperators()
    ensures Lookup(BinOps, "-") == Some(Minus)
    ensures Lookup(BinOps, "+") == Some(Plus)
    ensures Lookup(BinOps, "*") == Some(Times)
  {
    TableEntry(5, Minus);
    TableEntry(4, Plus);
    TableEntry(3, Times);
  }

  lemma TableEntry(i: nat, o: Operator)
    requires i < |BinOps| && BinOps[i] == o
    ensures Lookup(BinOps, o.name) == Some(o)
  {
    BinOpsSorted();
    LookupAt(BinOps, i);
  }

  /** Left associativity for any operator functions and any stacks: when
      the operator waiting on top has the same precedence as the incoming
      one, it is applied before the incoming one is pushed; the loop then
      goes on from the stacks that application leaves. */
  lemma SamePrecedenceGroupsLeft(fns: OpFns, st: State, b: Base, o: Operator, r: Result<State>)
    requires Shape(st, b, 1) && |st.ops| > b.op && |st.vals| > b.val
    requires st.ops[|st.ops| - 1].prec == o.prec && r == Apply(fns, st.ops[|st.ops| - 1], PopOp(st))
    ensures r.Err? ==> Reduce(fns, st, b, o.prec) == Err(r.error)
    ensures r.Ok? ==> Shape(r.value, b, 1) && Reduce(fns, st, b, o.prec) == Reduce(fns, r.value, b, o.prec)
  {
    ReduceStep(fns, st, b, o.prec, r);
  }

  /** A waiting operator of lower precedence stays on the stack. */
  lemma LowerPrecedenceWaits(fns: OpFns, st: State, b: Base, o: Operator)
    requires Shape(st, b, 1) && |st.ops| > b.op && st.ops[|st.ops| - 1].prec < o.prec
    ensures Reduce(fns, st, b, o.prec) == Ok(st)
  {
    ReduceDone(fns, st, b, o.prec);
  }

  /** `8-3-2`: at the second `-` the waiting `-`, of the same precedence,
      is applied first, giving 5. */
  lemma SubtractionGroupsLeft(cfg: Config, nc: bool)
    ensures Reduce(Standard(cfg), State([Minus], [IntV(8), IntV(3)], nc), Base(0, 0), Minus.prec)
      == Ok(State([], [IntV(5)], nc))
  {
    var sub := Minus;
    var st := State([sub], [IntV(8), IntV(3)], nc);
    Ops.IntArithmeticExact(cfg, 8, 3);
    assert Apply(Standard(cfg), sub, PopOp(st)) == Ok(State([], [IntV(5)], nc));
    ReduceDone(Standard(cfg), State([], [IntV(5)], nc), Base(0, 0), 18);
  }

  /** `8-3-2`, continued: the end applies the second `-` to 5 and 2. */
  lemma SubtractionEnds(cfg: Config, nc: bool)
    ensures Drain(Standard(cfg), State([Minus], [IntV(5), IntV(2)], nc), Base(0, 0))
      == Ok(State([], [IntV(3)], nc))
  {
    var sub := Minus;
    var st := State([sub], [IntV(5), IntV(2)], nc);
    Ops.IntArithmeticExact(cfg, 5, 2);
    assert Apply(Standard(cfg), sub, PopOp(st)) == Ok(State([], [IntV(3)], nc));
  }

  /** `2+3*4`: at `*` the waiting `+` binds less tightly and stays. */
  lemma ProductBindsTighter(cfg: Config, nc: bool)
    ensures Reduce(Standard(cfg), State([Plus], [IntV(2), IntV(3)], nc), Base(0, 0), Times.prec)
      == Ok(State([Plus], [IntV(2), IntV(3)], nc))
  {
    ReduceDone(Standard(cfg), State([Plus], [IntV(2), IntV(3)], nc), Base(0, 0), 20);
  }

  /** `2+3*4`, continued: with both operators waiting above three values,
      the end applies `*` first, then `+`, giving 14. */
  lemma ProductEnds(cfg: Config, nc: bool)
    ensures Shape(State([Plus, Times], [IntV(2), IntV(3), IntV(4)], nc), Base(0, 0), 1) &&
      Drain(Standard(cfg), State([Plus, Times], [IntV(2), IntV(3), IntV(4)], nc), Base(0, 0))
      == Ok(State([], [IntV(14)], nc))
  {
    var st := State([Plus, Times], [IntV(2), IntV(3), IntV(4)], nc);
    assert Binaries([Plus]) == 1 by {
      assert [Plus][..0] == [];
    }
    assert Binaries(st.ops[0..]) == 2 by {
      assert st.ops[0..] == st.ops && st.ops[..1] == [Plus];
    }
    Ops.IntArithmeticExact(cfg, 3, 4);
    var st1 := State([Plus], [IntV(2), IntV(12)], nc);
    assert PopOp(st).ops == [Plus] && st.vals[..1] + [IntV(12)] == st1.vals;
    var r := Apply(Standard(cfg), Times, PopOp(st));
    assert r == Ok(st1);
    DrainStep(Standard(cfg), st, Base(0, 0), r);
    ProductEndsLast(cfg, nc);
  }

  lemma ProductEndsLast(cfg: Config, nc: bool)
    ensures Drain(Standard(cfg), State([Plus], [IntV(2), IntV(12)], nc), Base(0, 0))
      == Ok(State([], [IntV(14)], nc))
  {
    var add := Plus;
    var st := State([add], [IntV(2), IntV(12)], nc);
    Ops.IntArithmeticExact(cfg, 2, 12);
    assert Apply(Standard(cfg), add, PopOp(st)) == Ok(State([], [IntV(14)], nc));
  }
}
