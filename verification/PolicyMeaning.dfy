/**
 What a policy condition means: a direct reading of its tree, with macros looked
 up by name, unknown names read as false and lists read as their leaves.
 */
module PolicyMeaning {
  import opened Text
  import opened Sets
  import opened SfplSyntax
  import opened Predicates
  import L = ListExpansion

  /** The definitions in force at some point of the walk over a policy file. */
  datatype Env = Env(lists: L.Lists, macros: map<string, Expr>)

  // ------------------------------------------------------------------
  // Well-foundedness of references.

  /** Expanding `t` nests at most `n` macros deep, and every list it names expands. Both can be checked beforehand. */
  predicate TermGrounded(env: Env, t: Term, n: nat)
    decreases n, t, 0
  {
    match t
    case Variable(x) => x in env.macros ==> n > 0 && ConjsGrounded(env, env.macros[x].disjuncts, n - 1)
    case Not(u) => TermGrounded(env, u, n)
    case Unary(_) => true
    case Binary(_, _, _) => true
    case Member(_, _, args) => ArgsFinite(env.lists, args)
    case Paren(e) => ConjsGrounded(env, e.disjuncts, n)
  }

  predicate TermsGrounded(env: Env, terms: seq<Term>, n: nat)
    decreases n, terms, 1
  {
    forall i :: 0 <= i < |terms| ==> TermGrounded(env, terms[i], n)
  }

  predicate ConjsGrounded(env: Env, conjs: seq<Conj>, n: nat)
    decreases n, conjs, 2
  {
    forall i :: 0 <= i < |conjs| ==> TermsGrounded(env, conjs[i].terms, n)
  }

  predicate ArgsFinite(lists: L.Lists, args: seq<Arg>)
  {
    forall i :: 0 <= i < |args| && args[i].AtomArg? ==> L.Grounded(lists, args[i].atom.Text(), |lists|)
  }

  /** No bound on nesting is lost: the lists expand if they expand at all. */
  lemma ArgsFiniteMeans(lists: L.Lists, args: seq<Arg>)
    ensures ArgsFinite(lists, args) <==> forall i :: 0 <= i < |args| && args[i].AtomArg? ==> L.Finite(lists, args[i].atom.Text())
  {
    forall i | 0 <= i < |args| && args[i].AtomArg?
      ensures L.Finite(lists, args[i].atom.Text()) <==> L.Grounded(lists, args[i].atom.Text(), |lists|)
    {
      L.FiniteIsDecidable(lists, args[i].atom.Text());
    }
  }

  /** Expansion of the condition ends. */
  ghost predicate Finite(env: Env, e: Expr)
  {
    exists n: nat :: ConjsGrounded(env, e.disjuncts, n)
  }

  // ------------------------------------------------------------------
  // Meaning.

  ghost predicate Compares(fm: FieldMapper, op: Token, l: string, r: string, rec: FlatRecord)
  {
    match op
    case CONTAINS => Matches(fm, ContainsOp, fm.MapStr(l, rec), fm.MapStr(r, rec))
    case ICONTAINS => Matches(fm, IContainsOp, fm.MapStr(l, rec), fm.MapStr(r, rec))
    case STARTSWITH => Matches(fm, StartsWithOp, fm.MapStr(l, rec), fm.MapStr(r, rec))
    case ENDSWITH => Matches(fm, EndsWithOp, fm.MapStr(l, rec), fm.MapStr(r, rec))
    case EQ => Matches(fm, EqOp, fm.MapStr(l, rec), fm.MapStr(r, rec))
    case NEQ => !Matches(fm, EqOp, fm.MapStr(l, rec), fm.MapStr(r, rec))
    case GT => fm.MapInt(l, rec) > fm.MapInt(r, rec)
    case GE => fm.MapInt(l, rec) >= fm.MapInt(r, rec)
    case LT => fm.MapInt(l, rec) < fm.MapInt(r, rec)
    case LE => fm.MapInt(l, rec) <= fm.MapInt(r, rec)
    case _ => false
  }

  function MemberOperator(op: Token): Operator
  {
    if op == IN then EqOp else ContainsOp
  }

  /** `v` is a leaf of one of the atoms in the parentheses; bracketed items there are ignored. */
  ghost predicate IsArgLeaf(lists: L.Lists, args: seq<Arg>, v: string)
  {
    exists a :: a in args && IsLeafOf(lists, a, v)
  }

  /** The expansions of the atoms, one after the other. */
  ghost function AtomList(lists: L.Lists, args: seq<Arg>): seq<string>
    requires ArgsFinite(lists, args)
  {
    if args == [] then [] else
      var init, last := args[..|args| - 1], args[|args| - 1];
      AtomList(lists, init) + if last.AtomArg? then L.Reduced(lists, last.atom.Text(), |lists|) else []
  }

  ghost predicate IsLeafOf(lists: L.Lists, arg: Arg, v: string)
  {
    arg.AtomArg? && L.IsLeaf(lists, arg.atom.Text(), v)
  }

  /** The meaning of `t` on `rec`, following at most `n` nested macros. */
  ghost predicate TermHolds(fm: FieldMapper, env: Env, rec: FlatRecord, t: Term, n: nat)
    decreases n, t, 0
  {
    match t
    case Variable(x) => x in env.macros && n > 0 && ConjsHold(fm, env, rec, env.macros[x].disjuncts, n - 1)
    case Not(u) => !TermHolds(fm, env, rec, u, n)
    case Unary(a) => fm.IsSet(a.Text(), rec)
    case Binary(l, op, r) => Compares(fm, op, l.Text(), r.Text(), rec)
    case Member(l, op, args) =>
      exists v :: IsArgLeaf(env.lists, args, v) && Matches(fm, MemberOperator(op), fm.MapStr(l.Text(), rec), v)
    case Paren(e) => ConjsHold(fm, env, rec, e.disjuncts, n)
  }

  ghost predicate TermsHold(fm: FieldMapper, env: Env, rec: FlatRecord, terms: seq<Term>, n: nat)
    decreases n, terms, 1
  {
    forall i :: 0 <= i < |terms| ==> TermHolds(fm, env, rec, terms[i], n)
  }

  ghost predicate ConjsHold(fm: FieldMapper, env: Env, rec: FlatRecord, conjs: seq<Conj>, n: nat)
    decreases n, conjs, 2
  {
    exists i :: 0 <= i < |conjs| && TermsHold(fm, env, rec, conjs[i].terms, n)
  }

  /** The meaning of a condition. By `HoldsStable` the depth chosen does not matter. */
  ghost predicate Holds(fm: FieldMapper, env: Env, rec: FlatRecord, e: Expr)
    requires Finite(env, e)
  {
    var n: nat :| ConjsGrounded(env, e.disjuncts, n);
    ConjsHold(fm, env, rec, e.disjuncts, n)
  }

  lemma {:induction false} TermStable(fm: FieldMapper, env: Env, rec: FlatRecord, t: Term, n: nat, m: nat)
    requires n <= m && TermGrounded(env, t, n)
    ensures TermGrounded(env, t, m)
    ensures TermHolds(fm, env, rec, t, n) <==> TermHolds(fm, env, rec, t, m)
    decreases n, t, 0
  {
    match t
    case Variable(x) =>
      if x in env.macros {
        ConjsStable(fm, env, rec, env.macros[x].disjuncts, n - 1, m - 1);
      }
    case Not(u) => TermStable(fm, env, rec, u, n, m);
    case Unary(_) =>
    case Binary(_, _, _) =>
    case Member(_, _, _) =>
    case Paren(e) => ConjsStable(fm, env, rec, e.disjuncts, n, m);
  }

  lemma {:induction false} ConjsStable(fm: FieldMapper, env: Env, rec: FlatRecord, conjs: seq<Conj>, n: nat, m: nat)
    requires n <= m && ConjsGrounded(env, conjs, n)
    ensures ConjsGrounded(env, conjs, m)
    ensures ConjsHold(fm, env, rec, conjs, n) <==> ConjsHold(fm, env, rec, conjs, m)
    decreases n, conjs, 2
  {
    forall i | 0 <= i < |conjs|
      ensures TermsGrounded(env, conjs[i].terms, m)
      ensures TermsHold(fm, env, rec, conjs[i].terms, n) <==> TermsHold(fm, env, rec, conjs[i].terms, m)
    {
      var terms := conjs[i].terms;
      assert TermsGrounded(env, terms, n);
      forall j | 0 <= j < |terms|
        ensures TermGrounded(env, terms[j], m)
        ensures TermHolds(fm, env, rec, terms[j], n) <==> TermHolds(fm, env, rec, terms[j], m)
      {
        TermStable(fm, env, rec, terms[j], n, m);
      }
    }
  }

  /** Any depth at which references are exhausted gives the meaning. */
  lemma HoldsStable(fm: FieldMapper, env: Env, rec: FlatRecord, e: Expr, n: nat)
    requires ConjsGrounded(env, e.disjuncts, n)
    ensures Finite(env, e) && (Holds(fm, env, rec, e) <==> ConjsHold(fm, env, rec, e.disjuncts, n))
  {
    var k: nat :| ConjsGrounded(env, e.disjuncts, k)
      && (Holds(fm, env, rec, e) <==> ConjsHold(fm, env, rec, e.disjuncts, k));
    if k <= n {
      ConjsStable(fm, env, rec, e.disjuncts, k, n);
    } else {
      ConjsStable(fm, env, rec, e.disjuncts, n, k);
    }
  }

  // ------------------------------------------------------------------
  // Whether expansion ends can be decided with as many levels as there are macros.

  /** The macros whose bodies are exhausted after `k` levels. */
  function Settled(env: Env, k: nat): set<string>
  {
    set x | x in env.macros && ConjsGrounded(env, env.macros[x].disjuncts, k)
  }

  lemma {:induction false} TermGroundedBySettled(env: Env, t: Term, i: nat, j: nat)
    requires i > 0 && j > 0 && Settled(env, i - 1) == Settled(env, j - 1)
    ensures TermGrounded(env, t, i) <==> TermGrounded(env, t, j)
    decreases t, 0
  {
    match t
    case Variable(x) =>
      assert x in env.macros ==> (x in Settled(env, i - 1) <==> x in Settled(env, j - 1));
    case Not(u) => TermGroundedBySettled(env, u, i, j);
    case Unary(_) =>
    case Binary(_, _, _) =>
    case Member(_, _, _) =>
    case Paren(e) => ConjsGroundedBySettled(env, e.disjuncts, i, j);
  }

  lemma {:induction false} ConjsGroundedBySettled(env: Env, conjs: seq<Conj>, i: nat, j: nat)
    requires i > 0 && j > 0 && Settled(env, i - 1) == Settled(env, j - 1)
    ensures ConjsGrounded(env, conjs, i) <==> ConjsGrounded(env, conjs, j)
    decreases conjs, 2
  {
    forall a | 0 <= a < |conjs|
      ensures TermsGrounded(env, conjs[a].terms, i) <==> TermsGrounded(env, conjs[a].terms, j)
    {
      forall b | 0 <= b < |conjs[a].terms|
        ensures TermGrounded(env, conjs[a].terms[b], i) <==> TermGrounded(env, conjs[a].terms[b], j)
      {
        TermGroundedBySettled(env, conjs[a].terms[b], i, j);
      }
    }
  }

  lemma SettledGrows(fm: FieldMapper, rec: FlatRecord, env: Env, k: nat)
    ensures Settled(env, k) <= Settled(env, k + 1)
  {
    forall x | x in Settled(env, k) ensures x in Settled(env, k + 1) {
      ConjsStable(fm, env, rec, env.macros[x].disjuncts, k, k + 1);
    }
  }

  /** Once a level settles no new macro, no later level does. */
  lemma {:induction false} SettledStays(env: Env, k: nat, j: nat)
    requires k <= j && Settled(env, k) == Settled(env, k + 1)
    ensures Settled(env, j) == Settled(env, k)
    decreases j - k
  {
    if k < j {
      forall x | x in env.macros
        ensures x in Settled(env, k + 1) <==> x in Settled(env, k + 2)
      {
        ConjsGroundedBySettled(env, env.macros[x].disjuncts, k + 1, k + 2);
      }
      SettledStays(env, k + 1, j);
    }
  }

  /** Every level settles a further macro, until none does. */
  lemma {:induction false} SettledCounts(fm: FieldMapper, rec: FlatRecord, env: Env, k: nat)
    ensures |Settled(env, k)| > k || forall j :: j >= k ==> Settled(env, j) == Settled(env, k)
  {
    SettledGrows(fm, rec, env, k);
    if Settled(env, k) == Settled(env, k + 1) {
      forall j | j >= k ensures Settled(env, j) == Settled(env, k) {
        SettledStays(env, k, j);
      }
    } else if k == 0 {
      if Settled(env, 0) == {} {
        forall x | x in Settled(env, 1) ensures x in Settled(env, 0) {
          NoneSettled(env, env.macros[x].disjuncts);
        }
        assert false;
      }
    } else {
      SettledCounts(fm, rec, env, k - 1);
      if Settled(env, k) == Settled(env, k - 1) {
        SettledStays(env, k - 1, k + 1);
        assert false;
      }
      SettledGrows(fm, rec, env, k - 1);
      assert Settled(env, k - 1) < Settled(env, k);
      SubsetSize(Settled(env, k - 1), Settled(env, k));
    }
  }

  lemma {:induction false} NoneSettled(env: Env, conjs: seq<Conj>)
    requires Settled(env, 0) == {} && ConjsGrounded(env, conjs, 1)
    ensures ConjsGrounded(env, conjs, 0)
    decreases conjs, 2
  {
    forall a | 0 <= a < |conjs| ensures TermsGrounded(env, conjs[a].terms, 0) {
      assert TermsGrounded(env, conjs[a].terms, 1);
      forall b | 0 <= b < |conjs[a].terms| ensures TermGrounded(env, conjs[a].terms[b], 0) {
        NoneSettledTerm(env, conjs[a].terms[b]);
      }
    }
  }

  lemma {:induction false} NoneSettledTerm(env: Env, t: Term)
    requires Settled(env, 0) == {} && TermGrounded(env, t, 1)
    ensures TermGrounded(env, t, 0)
    decreases t, 0
  {
    match t
    case Variable(x) =>
      assert x !in Settled(env, 0);
    case Not(u) => NoneSettledTerm(env, u);
    case Unary(_) =>
    case Binary(_, _, _) =>
    case Member(_, _, _) =>
    case Paren(e) => NoneSettled(env, e.disjuncts);
  }

  /**
   Compilation of a condition ends if and only if following as many nested macros
   as are defined exhausts its references.
   */
  lemma FiniteIsDecidable(env: Env, e: Expr)
    ensures Finite(env, e) <==> ConjsGrounded(env, e.disjuncts, |env.macros|)
  {
    if n: nat :| ConjsGrounded(env, e.disjuncts, n) {
      var fm := FieldMapper(map[], (a, b) => "", a => a);
      var rec := FlatRecord(map[], map[]);
      var size := |env.macros|;
      if n <= size {
        ConjsStable(fm, env, rec, e.disjuncts, n, size);
      } else if size == 0 {
        assert Settled(env, 0) == {};
        assert Settled(env, n - 1) == Settled(env, 0);
        ConjsGroundedBySettled(env, e.disjuncts, n, 1);
        NoneSettled(env, e.disjuncts);
      } else {
        SettledCounts(fm, rec, env, size - 1);
        if |Settled(env, size - 1)| >= size {
          assert Settled(env, size - 1) <= env.macros.Keys;
          SubsetSize(Settled(env, size - 1), env.macros.Keys);
          forall x | x in env.macros ensures x in Settled(env, n - 1) {
            ConjsStable(fm, env, rec, env.macros[x].disjuncts, size - 1, n - 1);
          }
        }
        assert Settled(env, n - 1) == Settled(env, size - 1);
        ConjsGroundedBySettled(env, e.disjuncts, n, size);
      }
    }
  }
}
