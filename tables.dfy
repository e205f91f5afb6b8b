/** The operator tables `BinOp` and `UnOp`, and the two binary searches
    over sorted tables: `FindOperator` (by `strcmp`) and `FindFunc` (by
    `strcmp_lcfirst`, which ignores the case of the name looked up).  Each
    search is a method with its loop, proved to find exactly what a linear
    scan of the table finds. */
module Tables {
  import opened Errors
  import opened Chars
  import opened Values

  /** The function an operator entry points to. */
  datatype OpCode =
    | OpNe | OpMod | OpAnd | OpMul | OpAdd | OpSub | OpDiv
    | OpLt | OpLe | OpEq | OpGt | OpGe | OpOr
    | OpNot | OpNeg

  /** An `Operator` entry: its name, precedence and function.  The type
      field (UN_OP or BIN_OP) is the arity of the function. */
  datatype Operator = Operator(name: string, prec: int, code: OpCode)
  {
    /** UN_OP: the operator works on the top value in place. */
    predicate Unary() {
      code == OpNot || code == OpNeg
    }
  }

  /** `BinOp`: the binary operators, all left-associative, sorted by name. */
  const BinOps: seq<Operator> := [
    Operator("!=", 15, OpNe),
    Operator("%", 20, OpMod),
    Operator("&&", 14, OpAnd),
    Operator("*", 20, OpMul),
    Operator("+", 18, OpAdd),
    Operator("-", 18, OpSub),
    Operator("/", 20, OpDiv),
    Operator("<", 16, OpLt),
    Operator("<=", 16, OpLe),
    Operator("==", 15, OpEq),
    Operator(">", 16, OpGt),
    Operator(">=", 16, OpGe),
    Operator("||", 12, OpOr)
  ]

  /** `UnOp`: the unary operators, sorted by name. */
  const UnOps: seq<Operator> := [
    Operator("!", 22, OpNot),
    Operator("-", 22, OpNeg)
  ]

  /** The operator table names, strictly increasing under `strcmp`. */
  predicate OpsSorted(t: seq<Operator>) {
    forall i, j :: 0 <= i < j < |t| ==> StrCmp(t[i].name, t[j].name) < 0
  }

  /** The function table names, strictly increasing under `strcmp`. */
  predicate FuncsSorted(t: seq<BuiltinFunc>) {
    forall i, j :: 0 <= i < j < |t| ==> StrCmp(t[i].name, t[j].name) < 0
  }

  predicate OpNamesNulFree(t: seq<Operator>) {
    forall i :: 0 <= i < |t| ==> NulFree(t[i].name)
  }

  predicate FuncNamesNulFree(t: seq<BuiltinFunc>) {
    forall i :: 0 <= i < |t| ==> NulFree(t[i].name)
  }

  /** The first operator of the table with the given name: the reference
      the binary search is proved against. */
  function Lookup(t: seq<Operator>, name: string): (r: Option<Operator>)
    ensures r.Some? ==> r.value in t && r.value.name == name
    ensures r.None? <==> forall o :: o in t ==> o.name != name
  {
    if t == [] then None
    else if t[0].name == name then Some(t[0])
    else Lookup(t[1..], name)
  }

  /** The first function of the table with the given name. */
  function LookupFunc(t: seq<BuiltinFunc>, name: string): (r: Option<BuiltinFunc>)
    ensures r.Some? ==> r.value in t && r.value.name == name
    ensures r.None? <==> forall f :: f in t ==> f.name != name
  {
    if t == [] then None
    else if t[0].name == name then Some(t[0])
    else LookupFunc(t[1..], name)
  }

  /** In a sorted table an entry is found under its own name. */
  lemma {:induction false} LookupAt(t: seq<Operator>, i: nat)
    requires OpsSorted(t) && i < |t|
    ensures Lookup(t, t[i].name) == Some(t[i])
  {
    if i > 0 {
      StrCmpRefl(t[i].name, 0);
      assert t[0].name != t[i].name;
      assert t[1..][i - 1] == t[i];
      LookupAt(t[1..], i - 1);
    }
  }

  lemma {:induction false} LookupFuncAt(t: seq<BuiltinFunc>, i: nat)
    requires FuncsSorted(t) && i < |t|
    ensures LookupFunc(t, t[i].name) == Some(t[i])
  {
    if i > 0 {
      StrCmpRefl(t[i].name, 0);
      assert t[0].name != t[i].name;
      assert t[1..][i - 1] == t[i];
      LookupFuncAt(t[1..], i - 1);
    }
  }

  /** A string compares equal to itself. */
  lemma {:induction false} StrCmpRefl(a: string, i: nat)
    requires i <= |a|
    ensures StrCmp(a, a, i) == 0
    decreases |a| - i
  {
    if At(a, i) != NUL {
      StrCmpRefl(a, i + 1);
    }
  }

  /** `BinOp` is sorted, as the binary search needs. */
  lemma BinOpsSorted()
    ensures OpsSorted(BinOps) && OpNamesNulFree(BinOps)
  {
    BinOpsAdjacent();
    AdjacentSorted(BinOps);
    assert OpNamesNulFree(BinOps) by {
      forall i | 0 <= i < |BinOps|
        ensures NulFree(BinOps[i].name)
      {
        assert |BinOps[i].name| <= 2;
      }
    }
  }

  /** Each name of `BinOp` is below the next one. */
  lemma BinOpsAdjacent()
    ensures forall i :: 0 < i < |BinOps| ==> StrCmp(BinOps[i - 1].name, BinOps[i].name) < 0
  {
    assert StrCmp("!=", "%") < 0;
    assert StrCmp("%", "&&") < 0;
    assert StrCmp("&&", "*") < 0;
    assert StrCmp("*", "+") < 0;
    assert StrCmp("+", "-") < 0;
    assert StrCmp("-", "/") < 0;
    assert StrCmp("/", "<") < 0;
    assert StrCmp("<", "<=") < 0;
    assert StrCmp("<=", "==") < 0;
    assert StrCmp("==", ">") < 0;
    assert StrCmp(">", ">=") < 0;
    assert StrCmp(">=", "||") < 0;
  }

  /** `UnOp` is sorted, as the binary search needs. */
  lemma UnOpsSorted()
    ensures OpsSorted(UnOps) && OpNamesNulFree(UnOps)
  {
    AdjacentSorted(UnOps);
  }

  /** Sortedness follows from sortedness of neighbours. */
  lemma AdjacentSorted(t: seq<Operator>)
    requires forall i :: 0 < i < |t| ==> StrCmp(t[i - 1].name, t[i].name) < 0
    ensures OpsSorted(t)
  {
    forall i, j | 0 <= i < j < |t|
      ensures StrCmp(t[i].name, t[j].name) < 0
    {
      AdjacentChain(t, i, j);
    }
  }

  lemma {:induction false} AdjacentChain(t: seq<Operator>, i: nat, j: nat)
    requires forall k :: 0 < k < |t| ==> StrCmp(t[k - 1].name, t[k].name) < 0
    requires i < j < |t|
    ensures StrCmp(t[i].name, t[j].name) < 0
    decreases j - i
  {
    if i + 1 < j {
      AdjacentChain(t, i, j - 1);
      StrCmpTrans(t[i].name, t[j - 1].name, t[j].name, 0);
    }
  }

  /** `FindOperator`: binary search of a sorted table by `strcmp`. */
  method FindOperator(name: string, t: seq<Operator>) returns (r: Option<Operator>)
    requires OpsSorted(t) && OpNamesNulFree(t) && NulFree(name)
    ensures r == Lookup(t, name)
  {
    var top, bot := |t| - 1, 0;
    while top >= bot
      invariant 0 <= bot <= |t| && -1 <= top < |t| && bot <= top + 1
      invariant forall k :: 0 <= k < bot ==> StrCmp(t[k].name, name) < 0
      invariant forall k :: top < k < |t| ==> StrCmp(t[k].name, name) > 0
      decreases top - bot
    {
      var mid := (top + bot) / 2;
      var c := StrCmp(name, t[mid].name);
      StrCmpSwap(name, t[mid].name, 0);
      if c == 0 {
        StrCmpZero(name, t[mid].name, 0);
        assert name == t[mid].name by {
          assert name[0..] == name && t[mid].name[0..] == t[mid].name;
        }
        LookupAt(t, mid);
        return Some(t[mid]);
      } else if c > 0 {
        forall k | bot <= k <= mid
          ensures StrCmp(t[k].name, name) < 0
        {
          if k < mid {
            StrCmpTrans(t[k].name, t[mid].name, name, 0);
          }
        }
        bot := mid + 1;
      } else {
        forall k | mid <= k <= top
          ensures StrCmp(t[k].name, name) > 0
        {
          if k > mid {
            StrCmpSwap(t[mid].name, t[k].name, 0);
            StrCmpSwap(t[k].name, name, 0);
            StrCmpTrans(name, t[mid].name, t[k].name, 0);
          }
        }
        top := mid - 1;
      }
    }
    forall o | o in t
      ensures o.name != name
    {
      var k :| 0 <= k < |t| && t[k] == o;
      StrCmpRefl(name, 0);
    }
    return None;
  }

  /** `strcmp` of the lower-cased first string with the second: the
      comparison `strcmp_lcfirst` performs. */
  function LcFirst(a: string, b: string): int {
    StrCmp(LowerString(a), b)
  }

  /** `strcmp_lcfirst`: compares `tolower` of each character of the first
      string with the second string's character. */
  method StrCmpLcFirst(s1: string, s2: string) returns (r: int)
    ensures r == LcFirst(s1, s2)
  {
    var l := LowerString(s1);
    var i := 0;
    while At(s1, i) != NUL && At(s2, i) != NUL
      invariant 0 <= i <= |s1| && i <= |s2|
      invariant StrCmp(l, s2, i) == StrCmp(l, s2, 0)
      decreases |s1| - i
    {
      LowerAt(s1, i);
      r := Lower(At(s1, i)) as int - At(s2, i) as int;
      if r != 0 {
        return r;
      }
      i := i + 1;
    }
    LowerAt(s1, i);
    r := Lower(At(s1, i)) as int - At(s2, i) as int;
  }

  /** The lower-cased string holds the lower-cased character, NUL past
      its end included. */
  lemma LowerAt(s: string, i: nat)
    ensures At(LowerString(s), i) == Lower(At(s, i))
  {
  }

  /** A lower-cased name without NULs has none either. */
  lemma LowerNulFree(s: string)
    requires NulFree(s)
    ensures NulFree(LowerString(s))
  {
  }

  /** `FindFunc`: binary search of a sorted function table by
      `strcmp_lcfirst`, which finds the entry named by the lower-cased name. */
  method FindFunc(name: string, t: seq<BuiltinFunc>) returns (r: Option<BuiltinFunc>)
    requires FuncsSorted(t) && FuncNamesNulFree(t) && NulFree(name)
    ensures r == LookupFunc(t, LowerString(name))
  {
    var key := LowerString(name);
    LowerNulFree(name);
    var top, bot := |t| - 1, 0;
    while top >= bot
      invariant 0 <= bot <= |t| && -1 <= top < |t| && bot <= top + 1
      invariant forall k :: 0 <= k < bot ==> StrCmp(t[k].name, key) < 0
      invariant forall k :: top < k < |t| ==> StrCmp(t[k].name, key) > 0
      decreases top - bot
    {
      var mid := (top + bot) / 2;
      var c := StrCmpLcFirst(name, t[mid].name);
      StrCmpSwap(key, t[mid].name, 0);
      if c == 0 {
        StrCmpZero(key, t[mid].name, 0);
        assert key == t[mid].name by {
          assert key[0..] == key && t[mid].name[0..] == t[mid].name;
        }
        LookupFuncAt(t, mid);
        return Some(t[mid]);
      } else if c > 0 {
        forall k | bot <= k <= mid
          ensures StrCmp(t[k].name, key) < 0
        {
          if k < mid {
            StrCmpTrans(t[k].name, t[mid].name, key, 0);
          }
        }
        bot := mid + 1;
      } else {
        forall k | mid <= k <= top
          ensures StrCmp(t[k].name, key) > 0
        {
          if k > mid {
            StrCmpSwap(t[mid].name, t[k].name, 0);
            StrCmpSwap(t[k].name, key, 0);
            StrCmpTrans(key, t[mid].name, t[k].name, 0);
          }
        }
        top := mid - 1;
      }
    }
    forall f | f in t
      ensures f.name != key
    {
      var k :| 0 <= k < |t| && t[k] == f;
      StrCmpRefl(key, 0);
    }
    return None;
  }
}
