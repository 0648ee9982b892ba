/** Which definition a condition sees, and why the order of definitions does not matter. */
module DefinitionOrder {
  import opened Text
  import opened SfplSyntax
  import opened PolicyMeaning
  import opened PolicyCompiler
  import L = ListExpansion

  predicate DefinesMacro(d: Decl, x: string)
  {
    d.MacroDecl? && d.name == x
  }

  predicate DefinesList(d: Decl, x: string)
  {
    d.ListDecl? && d.name == x
  }

  /** The last definition of macro `x`, or -1. */
  function LastMacro(decls: seq<Decl>, x: string): (k: int)
    ensures -1 <= k < |decls|
    ensures k >= 0 ==> DefinesMacro(decls[k], x)
    ensures forall j :: k < j < |decls| ==> !DefinesMacro(decls[j], x)
  {
    if decls == [] then -1
    else if DefinesMacro(decls[|decls| - 1], x) then |decls| - 1
    else LastMacro(decls[..|decls| - 1], x)
  }

  function LastList(decls: seq<Decl>, x: string): (k: int)
    ensures -1 <= k < |decls|
    ensures k >= 0 ==> DefinesList(decls[k], x)
    ensures forall j :: k < j < |decls| ==> !DefinesList(decls[j], x)
  {
    if decls == [] then -1
    else if DefinesList(decls[|decls| - 1], x) then |decls| - 1
    else LastList(decls[..|decls| - 1], x)
  }

  function Get<T>(m: map<string, T>, x: string): Option<T>
  {
    if x in m then Some(m[x]) else None
  }

  /** What a walk over `decls` leaves behind for each name. */
  lemma {:induction false} WalkLookup(env: Env, decls: seq<Decl>, x: string)
    ensures Get(DefineAll(env, decls).macros, x) ==
            if LastMacro(decls, x) >= 0 then Some(decls[LastMacro(decls, x)].body) else Get(env.macros, x)
    ensures Get(DefineAll(env, decls).lists, x) ==
            if LastList(decls, x) >= 0 then Some(L.ExtractItems(decls[LastList(decls, x)].items)) else Get(env.lists, x)
  {
    if decls != [] {
      WalkLookup(env, decls[..|decls| - 1], x);
    }
  }

  /**
   A condition at position `k` sees the nearest preceding definition of a macro in
   its file; failing that the last one in the file; failing that an earlier file's.
   */
  lemma MacroSeen(env: Env, decls: seq<Decl>, k: nat, x: string)
    requires k <= |decls|
    ensures Get(EnvAt(env, decls, k).macros, x) ==
            if LastMacro(decls[..k], x) >= 0 then Some(decls[LastMacro(decls[..k], x)].body)
            else if LastMacro(decls, x) >= 0 then Some(decls[LastMacro(decls, x)].body)
            else Get(env.macros, x)
  {
    WalkLookup(DefineAll(env, decls), decls[..k], x);
    WalkLookup(env, decls, x);
  }

  lemma ListSeen(env: Env, decls: seq<Decl>, k: nat, x: string)
    requires k <= |decls|
    ensures Get(EnvAt(env, decls, k).lists, x) ==
            if LastList(decls[..k], x) >= 0 then Some(L.ExtractItems(decls[LastList(decls[..k], x)].items))
            else if LastList(decls, x) >= 0 then Some(L.ExtractItems(decls[LastList(decls, x)].items))
            else Get(env.lists, x)
  {
    WalkLookup(DefineAll(env, decls), decls[..k], x);
    WalkLookup(env, decls, x);
  }

  // ------------------------------------------------------------------
  // Which conditions are compiled, and with which definitions.

  ghost predicate Ascending(ps: seq<nat>)
  {
    forall i, j :: 0 <= i < j < |ps| ==> ps[i] < ps[j]
  }

  /** One site for each rule of the file, in order, with the definitions that precede it. */
  ghost predicate AreRulesAt(env: Env, decls: seq<Decl>, sites: seq<Site<RuleInfo>>, ps: seq<nat>)
  {
    |ps| == |sites| && Ascending(ps) && (forall n: nat :: n in ps <==> n < |decls| && decls[n].RuleDecl?)
    && forall i :: 0 <= i < |ps| ==>
         ps[i] < |decls| && decls[ps[i]].RuleDecl?
         && sites[i] == Site(decls[ps[i]].info, decls[ps[i]].cond, DefineAll(env, decls[..ps[i]]))
  }

  ghost predicate AreFiltersAt(env: Env, decls: seq<Decl>, sites: seq<Site<FilterInfo>>, ps: seq<nat>)
  {
    |ps| == |sites| && Ascending(ps) && (forall n: nat :: n in ps <==> n < |decls| && decls[n].FilterDecl?)
    && forall i :: 0 <= i < |ps| ==>
         ps[i] < |decls| && decls[ps[i]].FilterDecl?
         && sites[i] == Site(decls[ps[i]].filter, decls[ps[i]].cond, DefineAll(env, decls[..ps[i]]))
  }

  /** Every rule of a file is compiled once, in order, where it stands. */
  lemma {:induction false} RulesStand(env: Env, decls: seq<Decl>) returns (ps: seq<nat>)
    ensures AreRulesAt(env, decls, RuleSites(env, decls), ps)
  {
    if decls == [] {
      ps := [];
    } else {
      var n := |decls| - 1;
      ps := RulesStand(env, decls[..n]);
      forall i | 0 <= i < |ps| ensures decls[..n][..ps[i]] == decls[..ps[i]] {
      }
      if decls[n].RuleDecl? {
        ps := ps + [n];
      }
    }
  }

  lemma {:induction false} FiltersStand(env: Env, decls: seq<Decl>) returns (ps: seq<nat>)
    ensures AreFiltersAt(env, decls, FilterSites(env, decls), ps)
  {
    if decls == [] {
      ps := [];
    } else {
      var n := |decls| - 1;
      ps := FiltersStand(env, decls[..n]);
      forall i | 0 <= i < |ps| ensures decls[..n][..ps[i]] == decls[..ps[i]] {
      }
      if decls[n].FilterDecl? {
        ps := ps + [n];
      }
    }
  }

  // ------------------------------------------------------------------
  // The order of definitions.

  predicate IsDefinition(d: Decl)
  {
    d.MacroDecl? || d.ListDecl?
  }

  /** Macros and lists have separate name spaces. */
  predicate SameName(c: Decl, d: Decl)
  {
    IsDefinition(c) && IsDefinition(d) && c.MacroDecl? == d.MacroDecl? && c.name == d.name
  }

  predicate Agree(c: Decl, d: Decl)
  {
    SameName(c, d) ==> c == d
  }

  /** No name has two different definitions. */
  ghost predicate Consistent(decls: seq<Decl>)
  {
    forall c, d {:trigger Agree(c, d)} :: c in decls && d in decls ==> Agree(c, d)
  }

  /** The two files make the same definitions, in any order and any number of times. */
  ghost predicate SameDefinitions(a: seq<Decl>, b: seq<Decl>)
  {
    forall d: Decl :: IsDefinition(d) ==> (d in a <==> d in b)
  }

  lemma SameMacro(env: Env, a: seq<Decl>, b: seq<Decl>, k: nat, x: string)
    requires Consistent(a) && SameDefinitions(a, b) && k <= |b|
    ensures Get(EnvAt(env, b, k).macros, x) == Get(DefineAll(env, a).macros, x)
  {
    MacroSeen(env, b, k, x);
    WalkLookup(env, a, x);
    var i, j, n := LastMacro(a, x), LastMacro(b, x), LastMacro(b[..k], x);
    assert i >= 0 ==> a[i] in b;
    if n >= 0 {
      assert b[n] in a && Agree(b[n], a[i]);
    } else if j >= 0 {
      assert b[j] in a && Agree(b[j], a[i]);
    }
  }

  lemma SameList(env: Env, a: seq<Decl>, b: seq<Decl>, k: nat, x: string)
    requires Consistent(a) && SameDefinitions(a, b) && k <= |b|
    ensures Get(EnvAt(env, b, k).lists, x) == Get(DefineAll(env, a).lists, x)
  {
    ListSeen(env, b, k, x);
    WalkLookup(env, a, x);
    var i, j, n := LastList(a, x), LastList(b, x), LastList(b[..k], x);
    assert i >= 0 ==> a[i] in b;
    if n >= 0 {
      assert b[n] in a && Agree(b[n], a[i]);
    } else if j >= 0 {
      assert b[j] in a && Agree(b[j], a[i]);
    }
  }

  lemma SameEnvironment(env: Env, a: seq<Decl>, b: seq<Decl>, k: nat)
    requires Consistent(a) && SameDefinitions(a, b) && k <= |b|
    ensures EnvAt(env, b, k) == DefineAll(env, a)
  {
    forall x
      ensures Get(EnvAt(env, b, k).macros, x) == Get(DefineAll(env, a).macros, x)
      ensures Get(EnvAt(env, b, k).lists, x) == Get(DefineAll(env, a).lists, x)
    {
      SameMacro(env, a, b, k, x);
      SameList(env, a, b, k, x);
    }
    SameMap(EnvAt(env, b, k).macros, DefineAll(env, a).macros);
    SameMap(EnvAt(env, b, k).lists, DefineAll(env, a).lists);
  }

  lemma SameMap<T>(m: map<string, T>, n: map<string, T>)
    requires forall x :: Get(m, x) == Get(n, x)
    ensures m == n
  {
    forall x
      ensures x in m <==> x in n
      ensures x in m && x in n ==> m[x] == n[x]
    {
      assert Get(m, x) == Get(n, x);
    }
    assert m.Keys == n.Keys;
  }

  /** The conditions of a file, without the definitions around them. */
  function RulesOf(decls: seq<Decl>): seq<(RuleInfo, Expr)>
  {
    if decls == [] then [] else
      var last := decls[|decls| - 1];
      RulesOf(decls[..|decls| - 1]) + if last.RuleDecl? then [(last.info, last.cond)] else []
  }

  function FiltersOf(decls: seq<Decl>): seq<(FilterInfo, Expr)>
  {
    if decls == [] then [] else
      var last := decls[|decls| - 1];
      FiltersOf(decls[..|decls| - 1]) + if last.FilterDecl? then [(last.filter, last.cond)] else []
  }

  function InEnv<T>(conds: seq<(T, Expr)>, env: Env): seq<Site<T>>
  {
    seq(|conds|, i requires 0 <= i < |conds| => Site(conds[i].0, conds[i].1, env))
  }

  lemma {:induction false} SitesInOneEnv(env: Env, decls: seq<Decl>)
    requires forall k :: 0 <= k <= |decls| ==> DefineAll(env, decls[..k]) == env
    ensures RuleSites(env, decls) == InEnv(RulesOf(decls), env)
    ensures FilterSites(env, decls) == InEnv(FiltersOf(decls), env)
  {
    if decls != [] {
      var init := decls[..|decls| - 1];
      forall k | 0 <= k <= |init| ensures DefineAll(env, init[..k]) == env {
        assert init[..k] == decls[..k];
      }
      SitesInOneEnv(env, init);
      assert init[..|init|] == init;
    }
  }

  /**
   Define-anywhere: two files with the same definitions, in whatever order, and the
   same rules and filters in the same order compile to the same conditions.
   */
  lemma DefineAnywhere(env: Env, a: seq<Decl>, b: seq<Decl>)
    requires Consistent(a) && SameDefinitions(a, b)
    requires RulesOf(a) == RulesOf(b) && FiltersOf(a) == FiltersOf(b)
    ensures RuleSites(DefineAll(env, a), a) == RuleSites(DefineAll(env, b), b)
    ensures FilterSites(DefineAll(env, a), a) == FilterSites(DefineAll(env, b), b)
  {
    var e := DefineAll(env, a);
    SameEnvironment(env, a, b, 0);
    assert b[..0] == [] && DefineAll(env, b) == e;
    forall k | 0 <= k <= |a| ensures DefineAll(e, a[..k]) == e {
      SameEnvironment(env, a, a, k);
    }
    forall k | 0 <= k <= |b| ensures DefineAll(e, b[..k]) == e {
      SameEnvironment(env, a, b, k);
    }
    SitesInOneEnv(e, a);
    SitesInOneEnv(e, b);
  }

  /** With unique names, permuting declarations changes no definition. */
  lemma PermutationKeepsDefinitions(a: seq<Decl>, b: seq<Decl>)
    requires multiset(a) == multiset(b)
    requires forall i, j :: 0 <= i < j < |a| ==> !SameName(a[i], a[j])
    ensures Consistent(a) && SameDefinitions(a, b)
  {
    forall d: Decl ensures d in a <==> d in b {
      assert d in a <==> d in multiset(a);
      assert d in b <==> d in multiset(b);
    }
  }
}
