/**
 The policy interpreter as a compiler: it walks a file twice, collects macros and
 lists, and turns every rule and filter condition into a closure.
 */
module PolicyCompiler {
  import opened Text
  import opened SfplSyntax
  import opened Predicates
  import opened PolicyMeaning
  import L = ListExpansion

  datatype Mode = EnrichMode | AlertMode

  /** The parts of a rule other than its condition. A tag is one string or a list of them. */
  datatype RuleInfo = RuleInfo(
    name: string,
    desc: string,
    actions: seq<string>,
    tags: seq<Tag>,
    priority: nat,
    prefilter: seq<string>,
    enabled: bool)

  datatype Tag = OneTag(tag: string) | TagList(tags: seq<string>)

  datatype FilterInfo = FilterInfo(name: string, enabled: bool)

  /** Something with a compiled condition. */
  datatype Conditional<+T> = Conditional(info: T, condition: Criterion)

  type Rule = Conditional<RuleInfo>

  type Filter = Conditional<FilterInfo>

  datatype Decl =
    | ListDecl(name: string, items: Items)
    | MacroDecl(name: string, body: Expr)
    | RuleDecl(info: RuleInfo, cond: Expr)
    | FilterDecl(filter: FilterInfo, cond: Expr)
    | OtherDecl

  /** A parsed file: the declarations the parser could recover, and whether it reported errors. */
  datatype File = File(decls: seq<Decl>, errors: bool)

  // ------------------------------------------------------------------
  // The environment in which each condition is compiled.

  function Define(env: Env, d: Decl): Env
  {
    match d
    case ListDecl(x, items) => env.(lists := env.lists[x := L.ExtractItems(items)])
    case MacroDecl(x, body) => env.(macros := env.macros[x := body])
    case _ => env
  }

  function DefineAll(env: Env, decls: seq<Decl>): Env
  {
    if decls == [] then env else Define(DefineAll(env, decls[..|decls| - 1]), decls[|decls| - 1])
  }

  /** The first pass sees the whole file; the second has come as far as declaration `k`. */
  function EnvAt(env: Env, decls: seq<Decl>, k: nat): Env
    requires k <= |decls|
  {
    DefineAll(DefineAll(env, decls), decls[..k])
  }

  /** A rule or filter condition together with the definitions in force where it stands. */
  datatype Site<T> = Site(what: T, cond: Expr, env: Env)

  function RuleSites(env: Env, decls: seq<Decl>): seq<Site<RuleInfo>>
  {
    if decls == [] then [] else
      var init, last := decls[..|decls| - 1], decls[|decls| - 1];
      RuleSites(env, init) + if last.RuleDecl? then [Site(last.info, last.cond, DefineAll(env, init))] else []
  }

  function FilterSites(env: Env, decls: seq<Decl>): seq<Site<FilterInfo>>
  {
    if decls == [] then [] else
      var init, last := decls[..|decls| - 1], decls[|decls| - 1];
      FilterSites(env, init)
      + if last.FilterDecl? then [Site(last.filter, last.cond, DefineAll(env, init))] else []
  }

  predicate HasCondition(d: Decl)
  {
    d.RuleDecl? || d.FilterDecl?
  }

  function ConditionOf(d: Decl): Expr
    requires HasCondition(d)
  {
    match d case RuleDecl(_, c) => c case FilterDecl(_, c) => c
  }

  /** No condition of the file sends expansion into a cycle. */
  ghost predicate Compilable(env: Env, decls: seq<Decl>)
  {
    forall k :: 0 <= k < |decls| ==> FiniteAt(DefineAll(env, decls), decls, k)
  }

  /** A condition at position `k` of a walk that starts with `env` has a finite expansion. */
  ghost predicate FiniteAt(env: Env, decls: seq<Decl>, k: nat)
    requires k < |decls|
  {
    HasCondition(decls[k]) ==> Finite(DefineAll(env, decls[..k]), ConditionOf(decls[k]))
  }

  /** The closure decides the meaning of the condition on every record. */
  ghost predicate Implements<T>(fm: FieldMapper, c: Criterion, site: Site<T>)
  {
    Finite(site.env, site.cond) && forall r :: c.pred(r) <==> Holds(fm, site.env, r, site.cond)
  }

  ghost predicate ImplementsAll<T>(fm: FieldMapper, cs: seq<Conditional<T>>, sites: seq<Site<T>>)
  {
    |cs| == |sites|
    && forall i :: 0 <= i < |cs| ==> cs[i].info == sites[i].what && Implements(fm, cs[i].condition, sites[i])
  }

  /** `all` keeps `base` and adds implementations of `sites`. */
  ghost predicate Adds<T>(fm: FieldMapper, base: seq<Conditional<T>>, all: seq<Conditional<T>>, sites: seq<Site<T>>)
  {
    |base| <= |all| && all[..|base|] == base && ImplementsAll(fm, all[|base|..], sites)
  }

  lemma AddsMore<T>(fm: FieldMapper, base: seq<Conditional<T>>, mid: seq<Conditional<T>>, all: seq<Conditional<T>>,
                    sites: seq<Site<T>>, more: seq<Site<T>>)
    requires Adds(fm, base, mid, sites) && Adds(fm, mid, all, more)
    ensures Adds(fm, base, all, sites + more)
  {
    assert all[..|base|] == all[..|mid|][..|base|];
    assert all[|base|..] == mid[|base|..] + all[|mid|..];
  }

  class PolicyInterpreter {
    const mapper: FieldMapper
    var rules: seq<Rule>
    var filters: seq<Filter>
    var lists: L.Lists
    var macroCtxs: map<string, Expr>

    constructor (mapper: FieldMapper)
      ensures this.mapper == mapper
      ensures rules == [] && filters == [] && Definitions() == Env(map[], map[])
    {
      this.mapper := mapper;
      rules, filters, lists, macroCtxs := [], [], map[], map[];
    }

    function Definitions(): Env
      reads this
    {
      Env(lists, macroCtxs)
    }

    method ReduceList(name: string, ghost n: nat) returns (s: seq<string>)
      requires L.Grounded(lists, name, n)
      ensures s == L.Reduced(lists, name, n)
      decreases n
    {
      if name in lists {
        s := [];
        var l := lists[name];
        for k := 0 to |l|
          invariant forall v :: v in l[..k] ==> v in l
          invariant s == L.ReducedAll(lists, l[..k], n - 1)
        {
          assert l[k] in l && l[..k + 1][..k] == l[..k];
          var more := ReduceList(l[k], n - 1);
          s := s + more;
        }
        assert l[..|l|] == l;
      } else {
        s := [TrimBoundingQuotes(name)];
      }
    }

    /** The list operand of `in` and `pmatch`: the leaves of the atoms in the parentheses, in order. */
    method ExtractListFromAtoms(args: seq<Arg>) returns (s: seq<string>)
      requires ArgsFinite(lists, args)
      ensures s == AtomList(lists, args)
      ensures forall v :: v in s <==> IsArgLeaf(lists, args, v)
    {
      s := [];
      for k := 0 to |args|
        invariant s == AtomList(lists, args[..k])
      {
        assert args[..k + 1][..k] == args[..k];
        if args[k].AtomArg? {
          var more := ReduceList(args[k].atom.Text(), |lists|);
          s := s + more;
        }
      }
      assert args[..|args|] == args;
      forall v ensures v in s <==> IsArgLeaf(lists, args, v) {
        AtomListLeaves(lists, args, v);
      }
    }

    method VisitTerm(t: Term, ghost n: nat) returns (c: Criterion)
      requires TermGrounded(Definitions(), t, n)
      ensures forall r :: c.pred(r) <==> TermHolds(mapper, Definitions(), r, t, n)
      decreases n, t, 0
    {
      match t
      case Variable(x) =>
        if x in macroCtxs {
          c := VisitExpression(macroCtxs[x], n - 1);
          return;
        }
        return FALSE;
      case Not(u) =>
        c := VisitTerm(u, n);
        return c.Negate();
      case Unary(a) =>
        return Exists(mapper, a.Text());
      case Binary(l, op, r) =>
        return VisitBinary(l.Text(), op, r.Text());
      case Member(l, op, args) =>
        c := VisitMember(l.Text(), op, args);
      case Paren(e) =>
        c := VisitExpression(e, n);
    }

    /** `<` and `<=` are compiled as negated `>=` and `>`, and `!=` as the negation of `=`. */
    function VisitBinary(l: string, op: Token, r: string): (c: Criterion)
      ensures forall rec :: c.pred(rec) <==> Compares(mapper, op, l, r, rec)
    {
      match op
      case CONTAINS => Relation(mapper, ContainsOp, l, r)
      case ICONTAINS => Relation(mapper, IContainsOp, l, r)
      case STARTSWITH => Relation(mapper, StartsWithOp, l, r)
      case ENDSWITH => Relation(mapper, EndsWithOp, l, r)
      case EQ => Eq(mapper, l, r)
      case NEQ => NEq(mapper, l, r)
      case GT => Gt(mapper, l, r)
      case GE => Ge(mapper, l, r)
      case LT => Lt(mapper, l, r)
      case LE => Le(mapper, l, r)
      case _ => FALSE
    }

    method VisitMember(l: string, op: Token, args: seq<Arg>) returns (c: Criterion)
      requires ArgsFinite(lists, args)
      ensures forall r :: c.pred(r) <==>
        exists v :: IsArgLeaf(lists, args, v) && Matches(mapper, MemberOperator(op), mapper.MapStr(l, r), v)
    {
      var list := ExtractListFromAtoms(args);
      if op == IN {
        c := In(mapper, l, list);
      } else {
        c := PMatch(mapper, l, list);
      }
      forall r ensures c.pred(r) <==>
        exists v :: IsArgLeaf(lists, args, v) && Matches(mapper, MemberOperator(op), mapper.MapStr(l, r), v)
      {
        assert c.pred(r) <==> MatchesAny(mapper, MemberOperator(op), mapper.MapStr(l, r), list);
        AnyMember(mapper, MemberOperator(op), mapper.MapStr(l, r), list);
      }
    }

    /** The closure built for a condition decides its meaning on every record. */
    method VisitExpression(e: Expr, ghost n: nat) returns (c: Criterion)
      requires ConjsGrounded(Definitions(), e.disjuncts, n)
      ensures forall r :: c.pred(r) <==> ConjsHold(mapper, Definitions(), r, e.disjuncts, n)
      decreases n, e, 2
    {
      var conjs := e.disjuncts;
      var orPreds: seq<Criterion> := [];
      for i := 0 to |conjs|
        invariant |orPreds| == i
        invariant forall k, r :: 0 <= k < i ==>
          (orPreds[k].pred(r) <==> TermsHold(mapper, Definitions(), r, conjs[k].terms, n))
      {
        var terms := conjs[i].terms;
        assert TermsGrounded(Definitions(), terms, n);
        var andPreds: seq<Criterion> := [];
        for j := 0 to |terms|
          invariant |andPreds| == j
          invariant forall k, r :: 0 <= k < j ==>
            (andPreds[k].pred(r) <==> TermHolds(mapper, Definitions(), r, terms[k], n))
        {
          var t := VisitTerm(terms[j], n);
          andPreds := andPreds + [t];
        }
        var all := All(andPreds);
        orPreds := orPreds + [all];
      }
      c := Any(orPreds);
    }

    method ExitPlist(name: string, items: Items)
      modifies this`lists
      ensures Definitions() == Define(old(Definitions()), ListDecl(name, items))
    {
      var list := L.ExtractListLoop(L.ItemsText(items));
      lists := lists[name := list];
    }

    method ExitPmacro(name: string, body: Expr)
      modifies this`macroCtxs
      ensures Definitions() == Define(old(Definitions()), MacroDecl(name, body))
    {
      macroCtxs := macroCtxs[name := body];
    }

    method ExitPfilter(filter: FilterInfo, cond: Expr)
      requires Finite(Definitions(), cond)
      modifies this`filters
      ensures Adds(mapper, old(filters), filters, [Site(filter, cond, Definitions())])
    {
      var c := Visit(cond);
      filters := filters + [Conditional(filter, c)];
    }

    method ExitPrule(info: RuleInfo, cond: Expr)
      requires Finite(Definitions(), cond)
      modifies this`rules
      ensures Adds(mapper, old(rules), rules, [Site(info, cond, Definitions())])
    {
      var c := Visit(cond);
      rules := rules + [Conditional(info, c)];
    }

    /** The compiled condition decides the meaning of the tree under the current definitions. */
    method Visit(cond: Expr) returns (c: Criterion)
      requires Finite(Definitions(), cond)
      ensures forall r :: c.pred(r) <==> Holds(mapper, Definitions(), r, cond)
    {
      ghost var n: nat :| ConjsGrounded(Definitions(), cond.disjuncts, n);
      c := VisitExpression(cond, n);
      forall r ensures c.pred(r) <==> Holds(mapper, Definitions(), r, cond) {
        HoldsStable(mapper, Definitions(), r, cond, n);
      }
    }

    /** The first pass takes in every macro and list of the file, in order. */
    method WalkDefs(decls: seq<Decl>)
      modifies this`lists, this`macroCtxs
      ensures Definitions() == DefineAll(old(Definitions()), decls)
    {
      for k := 0 to |decls|
        invariant Definitions() == DefineAll(old(Definitions()), decls[..k])
      {
        assert decls[..k + 1][..k] == decls[..k];
        match decls[k]
        case ListDecl(name, items) => ExitPlist(name, items);
        case MacroDecl(name, body) => ExitPmacro(name, body);
        case _ =>
      }
      assert decls[..|decls|] == decls;
    }

    /** The second pass redefines macros and lists as it meets them again, and compiles conditions. */
    method WalkPolicy(decls: seq<Decl>)
      requires forall k :: 0 <= k < |decls| ==> FiniteAt(Definitions(), decls, k)
      modifies this
      ensures Definitions() == DefineAll(old(Definitions()), decls)
      ensures Adds(mapper, old(rules), rules, RuleSites(old(Definitions()), decls))
      ensures Adds(mapper, old(filters), filters, FilterSites(old(Definitions()), decls))
    {
      ghost var env := Definitions();
      for k := 0 to |decls|
        invariant Definitions() == DefineAll(env, decls[..k])
        invariant Adds(mapper, old(rules), rules, RuleSites(env, decls[..k]))
        invariant Adds(mapper, old(filters), filters, FilterSites(env, decls[..k]))
      {
        ghost var rs, fs := rules, filters;
        DeclStep(env, decls, k);
        assert FiniteAt(env, decls, k);
        match decls[k]
        case ListDecl(name, items) => ExitPlist(name, items);
        case MacroDecl(name, body) => ExitPmacro(name, body);
        case RuleDecl(info, cond) =>
          ExitPrule(info, cond);
          AddsMore(mapper, old(rules), rs, rules, RuleSites(env, decls[..k]), [Site(info, cond, Definitions())]);
        case FilterDecl(filter, cond) =>
          ExitPfilter(filter, cond);
          AddsMore(mapper, old(filters), fs, filters, FilterSites(env, decls[..k]), [Site(filter, cond, Definitions())]);
        case OtherDecl =>
      }
      assert decls[..|decls|] == decls;
    }

    /**
     `compile`: every rule and filter of the file is compiled in order, each with
     the definitions in force where it stands; a file with errors is rejected.
     */
    method CompileFile(file: File) returns (ok: bool)
      requires Compilable(Definitions(), file.decls)
      modifies this
      ensures ok == !file.errors
      ensures Definitions() == EnvAt(old(Definitions()), file.decls, |file.decls|)
      ensures Adds(mapper, old(rules), rules, RuleSites(DefineAll(old(Definitions()), file.decls), file.decls))
      ensures Adds(mapper, old(filters), filters, FilterSites(DefineAll(old(Definitions()), file.decls), file.decls))
    {
      WalkDefs(file.decls);
      WalkPolicy(file.decls);
      assert file.decls[..|file.decls|] == file.decls;
      return !file.errors;
    }

    /** The interpreter has taken in what `stage` says, on top of the rules and filters it had. */
    ghost predicate Fits(rs: seq<Rule>, fs: seq<Filter>, stage: Stage)
      reads this
    {
      Definitions() == stage.env && Adds(mapper, rs, rules, stage.rules) && Adds(mapper, fs, filters, stage.filters)
    }

    /** `Compile`: the files in order, up to the first rejected one. */
    method Compile(files: seq<File>) returns (ok: bool)
      requires forall k :: 0 <= k < |files| ==> CompilableAt(Stages(Definitions(), files)[k], files[k])
      modifies this
      ensures ok <==> forall k :: 0 <= k < |files| ==> !files[k].errors
      ensures ok ==> Fits(old(rules), old(filters), Stages(old(Definitions()), files)[|files|])
    {
      ghost var rs, fs, stages := rules, filters, Stages(Definitions(), files);
      for k := 0 to |files|
        invariant forall j :: 0 <= j < k ==> !files[j].errors
        invariant Fits(rs, fs, stages[k])
      {
        ok := CompileNext(files[k], rs, fs, stages[k]);
        if !ok {
          return;
        }
      }
      return true;
    }

    /** One turn of the loop of `Compile`. */
    method CompileNext(file: File, ghost rs: seq<Rule>, ghost fs: seq<Filter>, ghost stage: Stage) returns (ok: bool)
      requires Fits(rs, fs, stage) && CompilableAt(stage, file)
      modifies this
      ensures ok == !file.errors
      ensures Fits(rs, fs, After(stage, file))
    {
      ghost var rules0, filters0, here := rules, filters, DefineAll(Definitions(), file.decls);
      ok := CompileFile(file);
      AddsMore(mapper, rs, rules0, rules, stage.rules, RuleSites(here, file.decls));
      AddsMore(mapper, fs, filters0, filters, stage.filters, FilterSites(here, file.decls));
    }
  }

  /** What is known after some of the files: the definitions, and where rules and filters stand. */
  datatype Stage = Stage(env: Env, rules: seq<Site<RuleInfo>>, filters: seq<Site<FilterInfo>>)

  function After(s: Stage, file: File): Stage
  {
    var here := DefineAll(s.env, file.decls);
    Stage(EnvAt(s.env, file.decls, |file.decls|), s.rules + RuleSites(here, file.decls), s.filters + FilterSites(here, file.decls))
  }

  function Stages(env: Env, files: seq<File>): (stages: seq<Stage>)
    ensures |stages| == |files| + 1 && stages[0] == Stage(env, [], [])
    ensures forall k :: 0 <= k < |files| ==> stages[k + 1] == After(stages[k], files[k])
  {
    if files == [] then [Stage(env, [], [])] else
      var init, n := Stages(env, files[..|files| - 1]), |files| - 1;
      init + [After(init[n], files[n])]
  }

  /** The conditions of a file have finite expansions where they stand. */
  ghost predicate CompilableAt(s: Stage, file: File)
  {
    Compilable(s.env, file.decls)
  }

  lemma DeclStep(env: Env, decls: seq<Decl>, k: nat)
    requires k < |decls|
    ensures var before, d := DefineAll(env, decls[..k]), decls[k];
            DefineAll(env, decls[..k + 1]) == Define(before, d)
            && RuleSites(env, decls[..k + 1]) == RuleSites(env, decls[..k]) + (if d.RuleDecl? then [Site(d.info, d.cond, before)] else [])
            && FilterSites(env, decls[..k + 1]) == FilterSites(env, decls[..k]) + (if d.FilterDecl? then [Site(d.filter, d.cond, before)] else [])
  {
    assert decls[..k + 1][..k] == decls[..k];
  }

  lemma ArgLeafStep(lists: L.Lists, init: seq<Arg>, last: Arg, v: string)
    ensures IsArgLeaf(lists, init + [last], v) <==> IsArgLeaf(lists, init, v) || IsLeafOf(lists, last, v)
  {
    assert forall a :: a in init + [last] <==> a in init || a == last;
  }

  /** The expansions of the atoms are their leaves. */
  lemma {:induction false} AtomListLeaves(lists: L.Lists, args: seq<Arg>, v: string)
    requires ArgsFinite(lists, args)
    ensures v in AtomList(lists, args) <==> IsArgLeaf(lists, args, v)
  {
    if args != [] {
      var init, last := args[..|args| - 1], args[|args| - 1];
      AtomListLeaves(lists, init, v);
      ArgLeafStep(lists, init, last, v);
      assert args == init + [last];
      if last.AtomArg? {
        L.ReducedAreLeaves(lists, last.atom.Text(), |lists|, v);
      }
    }
  }

  lemma AnyMember(fm: FieldMapper, op: Operator, l: string, list: seq<string>)
    ensures MatchesAny(fm, op, l, list) <==> exists v :: v in list && Matches(fm, op, l, v)
  {
    if v :| v in list && Matches(fm, op, l, v) {
      var i :| 0 <= i < |list| && list[i] == v;
    }
  }
}
