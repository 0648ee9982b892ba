/** What the compiled policy does with one record. */
module RuleEngine {
  import opened Text
  import opened SfplSyntax
  import opened Predicates
  import opened PolicyMeaning
  import opened PolicyCompiler

  /** The context slots that only actions write: tags and hashes. */
  datatype Extras = Extras(tags: seq<string>, hashes: seq<string>)

  datatype Record = Record(fr: FlatRecord, alert: Option<bool>, rules: seq<RuleInfo>, extras: Extras)

  /** Actions by name. Calling one changes nothing but the extras; a built-in one shadows a user-defined one. */
  datatype ActionHandler = ActionHandler(builtIn: map<string, Extras -> Extras>, userDefined: map<string, Extras -> Extras>)
  {
    function Run(action: string, x: Extras): Extras
    {
      if action in builtIn then builtIn[action](x)
      else if action in userDefined then userDefined[action](x)
      else x
    }

    function RunAll(actions: seq<string>, x: Extras): Extras
    {
      if actions == [] then x else Run(actions[|actions| - 1], RunAll(actions[..|actions| - 1], x))
    }
  }

  datatype Policy = Policy(
    mapper: FieldMapper,
    mode: Mode,
    rules: seq<Rule>,
    filters: seq<Filter>,
    actions: ActionHandler)

  function NewRecord(fr: FlatRecord): Record
  {
    Record(fr, None, [], Extras([], []))
  }

  /** A prefilter, when there is one, must name the record's type. */
  predicate IsApplicable(fm: FieldMapper, info: RuleInfo, fr: FlatRecord)
  {
    info.prefilter == [] || fm.MapStr(SF_TYPE, fr) in info.prefilter
  }

  predicate Applies(fm: FieldMapper, rule: Rule, fr: FlatRecord)
  {
    rule.info.enabled && IsApplicable(fm, rule.info, fr) && rule.condition.pred(fr)
  }

  predicate Dropped(filters: seq<Filter>, fr: FlatRecord)
  {
    exists i | 0 <= i < |filters| :: filters[i].info.enabled && filters[i].condition.pred(fr)
  }

  /** The rules that apply, in declaration order. */
  function Applying(fm: FieldMapper, rules: seq<Rule>, fr: FlatRecord): seq<RuleInfo>
  {
    if rules == [] then [] else
      var last := rules[|rules| - 1];
      Applying(fm, rules[..|rules| - 1], fr) + if Applies(fm, last, fr) then [last.info] else []
  }

  function ActionsOf(infos: seq<RuleInfo>, actions: ActionHandler, x: Extras): Extras
  {
    if infos == [] then x
    else actions.RunAll(infos[|infos| - 1].actions, ActionsOf(infos[..|infos| - 1], actions, x))
  }

  /** `r` as it leaves a policy under which exactly `infos` apply. */
  function Enriched(p: Policy, r: Record, infos: seq<RuleInfo>): Record
  {
    Record(r.fr,
           if infos == [] then r.alert else Some(p.mode == AlertMode),
           r.rules + infos,
           ActionsOf(infos, p.actions, r.extras))
  }

  /** The record sent on, if any. */
  function Outcome(p: Policy, r: Record): Option<Record>
  {
    var infos := Applying(p.mapper, p.rules, r.fr);
    if Dropped(p.filters, r.fr) || (infos == [] && p.mode != EnrichMode) then None
    else Some(Enriched(p, r, infos))
  }

  /** `EvalFilters` */
  method EvalFilters(p: Policy, fr: FlatRecord) returns (drop: bool)
    ensures drop == Dropped(p.filters, fr)
  {
    for k := 0 to |p.filters|
      invariant forall i :: 0 <= i < k ==> !(p.filters[i].info.enabled && p.filters[i].condition.pred(fr))
    {
      if p.filters[k].info.enabled && p.filters[k].condition.pred(fr) {
        return true;
      }
    }
    return false;
  }

  /** A record object, whose context the engine fills in place. */
  class RecordCell {
    const fr: FlatRecord
    var alert: Option<bool>
    var rules: seq<RuleInfo>
    var extras: Extras

    constructor (fr: FlatRecord)
      ensures View() == NewRecord(fr)
    {
      this.fr := fr;
      alert, rules, extras := None, [], Extras([], []);
    }

    function View(): Record
      reads this
    {
      Record(fr, alert, rules, extras)
    }
  }

  lemma EnrichOne(p: Policy, r: Record, infos: seq<RuleInfo>, info: RuleInfo)
    ensures Enriched(p, r, infos + [info]) ==
            var e := Enriched(p, r, infos);
            Record(r.fr, Some(p.mode == AlertMode), e.rules + [info], p.actions.RunAll(info.actions, e.extras))
  {
    assert (infos + [info])[..|infos|] == infos;
    assert r.rules + (infos + [info]) == (r.rules + infos) + [info];
  }

  lemma ApplyingOne(fm: FieldMapper, rules: seq<Rule>, k: nat, fr: FlatRecord)
    requires k < |rules|
    ensures Applying(fm, rules[..k + 1], fr) ==
            Applying(fm, rules[..k], fr) + if Applies(fm, rules[k], fr) then [rules[k].info] else []
  {
    assert rules[..k + 1][..k] == rules[..k];
  }

  /** `Process`, and the loop body of a worker: decides on one record and enriches it in place. */
  method Process(p: Policy, r: RecordCell) returns (send: bool)
    modifies r
    ensures match Outcome(p, old(r.View())) case None => !send case Some(out) => send && r.View() == out
  {
    ghost var before := r.View();
    var drop := EvalFilters(p, r.fr);
    if drop {
      return false;
    }
    send := p.mode == EnrichMode;
    ghost var infos: seq<RuleInfo> := [];
    for k := 0 to |p.rules|
      invariant infos == Applying(p.mapper, p.rules[..k], r.fr)
      invariant r.View() == Enriched(p, before, infos)
      invariant send <==> p.mode == EnrichMode || infos != []
    {
      ApplyingOne(p.mapper, p.rules, k, r.fr);
      if Applies(p.mapper, p.rules[k], r.fr) {
        EnrichOne(p, before, infos, p.rules[k].info);
        infos := infos + [p.rules[k].info];
        r.alert := Some(p.mode == AlertMode);
        r.rules := r.rules + [p.rules[k].info];
        r.extras := p.actions.RunAll(p.rules[k].info.actions, r.extras);
        send := true;
      }
    }
    assert p.rules[..|p.rules|] == p.rules;
  }

  // ------------------------------------------------------------------
  // From policy text to decisions.

  /** The rules whose conditions hold by the meaning of their trees, in declaration order. */
  ghost function Selected(fm: FieldMapper, sites: seq<Site<RuleInfo>>, fr: FlatRecord): seq<RuleInfo>
    requires forall i :: 0 <= i < |sites| ==> Finite(sites[i].env, sites[i].cond)
  {
    if sites == [] then [] else
      var last := sites[|sites| - 1];
      Selected(fm, sites[..|sites| - 1], fr)
      + if last.what.enabled && IsApplicable(fm, last.what, fr) && Holds(fm, last.env, fr, last.cond) then [last.what] else []
  }

  lemma {:induction false} ApplyingIsSelected(fm: FieldMapper, rules: seq<Rule>, sites: seq<Site<RuleInfo>>, fr: FlatRecord)
    requires ImplementsAll(fm, rules, sites)
    ensures Applying(fm, rules, fr) == Selected(fm, sites, fr)
  {
    if rules != [] {
      assert Implements(fm, rules[|rules| - 1].condition, sites[|sites| - 1]);
      ApplyingIsSelected(fm, rules[..|rules| - 1], sites[..|sites| - 1], fr);
    }
  }

  /**
   A compiled policy passes a record on exactly when no enabled drop condition holds
   and some rule is selected (or the mode is `enrich`), and attaches exactly the
   selected rules, in declaration order, by the meaning of their condition trees.
   */
  lemma PolicyDecides(p: Policy, ruleSites: seq<Site<RuleInfo>>, filterSites: seq<Site<FilterInfo>>, r: Record)
    requires ImplementsAll(p.mapper, p.rules, ruleSites) && ImplementsAll(p.mapper, p.filters, filterSites)
    ensures var selected := Selected(p.mapper, ruleSites, r.fr);
            Outcome(p, r) ==
            if (exists i :: 0 <= i < |filterSites| && filterSites[i].what.enabled
                            && Holds(p.mapper, filterSites[i].env, r.fr, filterSites[i].cond))
               || (selected == [] && p.mode != EnrichMode)
            then None else Some(Enriched(p, r, selected))
  {
    ApplyingIsSelected(p.mapper, p.rules, ruleSites, r.fr);
    forall i | 0 <= i < |filterSites|
      ensures p.filters[i].info == filterSites[i].what
      ensures p.filters[i].condition.pred(r.fr) <==> Holds(p.mapper, filterSites[i].env, r.fr, filterSites[i].cond)
    {
      assert Implements(p.mapper, p.filters[i].condition, filterSites[i]);
    }
  }

  // ------------------------------------------------------------------
  // Decisions, without the functions that compute them.

  /** Positions of the rules that are enabled, meant for the record's type and hold of it, in order. */
  ghost predicate AreMatching(p: Policy, fr: FlatRecord, positions: seq<nat>)
  {
    (forall i, j :: 0 <= i < j < |positions| ==> positions[i] < positions[j])
    && (forall i :: 0 <= i < |positions| ==> positions[i] < |p.rules|)
    && (forall n :: 0 <= n < |p.rules| ==>
          (n in positions <==>
             p.rules[n].info.enabled && p.rules[n].condition.pred(fr)
             && (p.rules[n].info.prefilter == [] || p.mapper.MapStr("sf.type", fr) in p.rules[n].info.prefilter)))
  }

  ghost predicate SomeFilterHolds(p: Policy, fr: FlatRecord)
  {
    exists i :: 0 <= i < |p.filters| && p.filters[i].info.enabled && p.filters[i].condition.pred(fr)
  }

  /** The actions of the rules at the given positions, one after the other. */
  function ActionList(p: Policy, positions: seq<nat>): seq<string>
    requires forall i :: 0 <= i < |positions| ==> positions[i] < |p.rules|
  {
    if positions == [] then [] else
      ActionList(p, positions[..|positions| - 1]) + p.rules[positions[|positions| - 1]].info.actions
  }

  /** Each action is run on what the one before has left. */
  ghost predicate IsActionRun(h: ActionHandler, actions: seq<string>, states: seq<Extras>)
  {
    |states| == |actions| + 1
    && forall i :: 0 <= i < |actions| ==>
         states[i + 1] == (if actions[i] in h.builtIn then h.builtIn[actions[i]](states[i])
                           else if actions[i] in h.userDefined then h.userDefined[actions[i]](states[i])
                           else states[i])
  }

  /**
   `out` is what becomes of a record: no enabled filter holds; it carries the rules at
   the matching positions; there is one, or the mode is `enrich`; the alert says the mode
   if a rule matched; and the actions of those rules have been run in order.
   */
  ghost predicate IsDecision(p: Policy, r: Record, out: Record)
  {
    !SomeFilterHolds(p, r.fr) && out.fr == r.fr
    && exists positions: seq<nat> :: AreMatching(p, r.fr, positions) && Carries(p, r, out, positions)
  }

  /** The rules at the given positions follow those that were there. */
  ghost predicate CarriesAt(p: Policy, before: seq<RuleInfo>, after: seq<RuleInfo>, ps: seq<nat>)
    requires forall i :: 0 <= i < |ps| ==> ps[i] < |p.rules|
  {
    |after| == |before| + |ps| && after[..|before|] == before
    && forall i :: 0 <= i < |ps| ==> after[|before| + i] == p.rules[ps[i]].info
  }

  ghost predicate Carries(p: Policy, r: Record, out: Record, positions: seq<nat>)
    requires forall i :: 0 <= i < |positions| ==> positions[i] < |p.rules|
  {
    (positions != [] || p.mode == EnrichMode)
    && CarriesAt(p, r.rules, out.rules, positions)
    && out.alert == (if positions == [] then r.alert else Some(p.mode == AlertMode))
    && LeadsTo(p.actions, ActionList(p, positions), r.extras, out.extras)
  }

  /** The positions of the rules that apply. */
  ghost function Matching(fm: FieldMapper, rules: seq<Rule>, fr: FlatRecord): seq<nat>
  {
    if rules == [] then [] else
      var n := |rules| - 1;
      Matching(fm, rules[..n], fr) + if Applies(fm, rules[n], fr) then [n] else []
  }

  ghost predicate IsAscending(ps: seq<nat>)
  {
    forall i, j :: 0 <= i < j < |ps| ==> ps[i] < ps[j]
  }

  lemma {:induction false} MatchingAscends(fm: FieldMapper, rules: seq<Rule>, fr: FlatRecord)
    ensures IsAscending(Matching(fm, rules, fr)) && forall i :: 0 <= i < |Matching(fm, rules, fr)| ==> Matching(fm, rules, fr)[i] < |rules|
  {
    if rules != [] {
      MatchingAscends(fm, rules[..|rules| - 1], fr);
    }
  }

  lemma InAppended(ps: seq<nat>, more: seq<nat>, k: nat)
    ensures k in ps + more <==> k in ps || k in more
  {
  }

  lemma MatchingNext(fm: FieldMapper, rules: seq<Rule>, fr: FlatRecord, k: nat)
    requires rules != []
    ensures var n := |rules| - 1;
            k in Matching(fm, rules, fr) <==> k in Matching(fm, rules[..n], fr) || (k == n && Applies(fm, rules[n], fr))
  {
    var n := |rules| - 1;
    InAppended(Matching(fm, rules[..n], fr), if Applies(fm, rules[n], fr) then [n] else [], k);
  }

  lemma {:induction false} MatchingMember(fm: FieldMapper, rules: seq<Rule>, fr: FlatRecord, k: nat)
    ensures k in Matching(fm, rules, fr) <==> k < |rules| && Applies(fm, rules[k], fr)
  {
    if rules != [] {
      var n := |rules| - 1;
      MatchingNext(fm, rules, fr, k);
      MatchingMember(fm, rules[..n], fr, k);
      assert k < n ==> rules[..n][k] == rules[k];
    }
  }

  lemma {:induction false} MatchingInfos(fm: FieldMapper, rules: seq<Rule>, fr: FlatRecord, i: nat)
    requires i < |Matching(fm, rules, fr)|
    ensures |Applying(fm, rules, fr)| == |Matching(fm, rules, fr)| && Matching(fm, rules, fr)[i] < |rules|
    ensures Applying(fm, rules, fr)[i] == rules[Matching(fm, rules, fr)[i]].info
  {
    var n := |rules| - 1;
    SameNumber(fm, rules, fr);
    SameNumber(fm, rules[..n], fr);
    if i < |Matching(fm, rules[..n], fr)| {
      MatchingInfos(fm, rules[..n], fr, i);
      assert rules[..n][Matching(fm, rules[..n], fr)[i]] == rules[Matching(fm, rules[..n], fr)[i]];
    }
  }

  lemma {:induction false} SameNumber(fm: FieldMapper, rules: seq<Rule>, fr: FlatRecord)
    ensures |Applying(fm, rules, fr)| == |Matching(fm, rules, fr)|
  {
    if rules != [] {
      SameNumber(fm, rules[..|rules| - 1], fr);
    }
  }

  lemma {:induction false} SamePositions(a: seq<nat>, b: seq<nat>)
    requires IsAscending(a) && IsAscending(b) && forall n: nat :: n in a <==> n in b
    ensures a == b
  {
    assert a != [] ==> a[0] in a;
    assert b != [] ==> b[0] in b;
    if a != [] && b != [] {
      assert a[0] == b[0];
      assert a == [a[0]] + a[1..] && b == [b[0]] + b[1..];
      forall n: nat ensures n in a[1..] <==> n in b[1..] {
        assert n in a <==> n == a[0] || n in a[1..];
        assert n in b <==> n == b[0] || n in b[1..];
      }
      SamePositions(a[1..], b[1..]);
    }
  }

  // Runs of actions.

  lemma {:induction false} RunAllConcat(h: ActionHandler, a: seq<string>, b: seq<string>, x: Extras)
    ensures h.RunAll(a + b, x) == h.RunAll(b, h.RunAll(a, x))
  {
    if b == [] {
      assert a + b == a;
    } else {
      var n := |b| - 1;
      assert (a + b)[..|a| + n] == a + b[..n] && (a + b)[|a| + n] == b[n];
      RunAllConcat(h, a, b[..n], x);
    }
  }

  lemma {:induction false} RunIsRunAll(h: ActionHandler, actions: seq<string>, states: seq<Extras>)
    requires IsActionRun(h, actions, states)
    ensures states[|actions|] == h.RunAll(actions, states[0])
  {
    if actions != [] {
      var n := |actions| - 1;
      RunIsRunAll(h, actions[..n], states[..n + 1]);
    }
  }

  lemma {:induction false} RunExists(h: ActionHandler, actions: seq<string>, x: Extras) returns (states: seq<Extras>)
    ensures IsActionRun(h, actions, states) && states[0] == x && states[|actions|] == h.RunAll(actions, x)
  {
    if actions == [] {
      states := [x];
    } else {
      var n := |actions| - 1;
      var before := RunExists(h, actions[..n], x);
      states := before + [h.Run(actions[n], before[n])];
    }
  }

  lemma {:induction false} ActionsInOrder(p: Policy, positions: seq<nat>, infos: seq<RuleInfo>, x: Extras)
    requires |positions| == |infos|
    requires forall i :: 0 <= i < |positions| ==> positions[i] < |p.rules| && infos[i] == p.rules[positions[i]].info
    ensures ActionsOf(infos, p.actions, x) == p.actions.RunAll(ActionList(p, positions), x)
  {
    if positions != [] {
      var n := |positions| - 1;
      ActionsInOrder(p, positions[..n], infos[..n], x);
      RunAllConcat(p.actions, ActionList(p, positions[..n]), infos[n].actions, x);
    }
  }

  lemma MatchingPositions(p: Policy, fr: FlatRecord)
    ensures AreMatching(p, fr, Matching(p.mapper, p.rules, fr))
  {
    MatchingAscends(p.mapper, p.rules, fr);
    forall n | 0 <= n < |p.rules| ensures n in Matching(p.mapper, p.rules, fr) <==> Applies(p.mapper, p.rules[n], fr) {
      MatchingMember(p.mapper, p.rules, fr, n);
    }
  }

  /** There is one list of matching positions. */
  lemma PositionsUnique(p: Policy, fr: FlatRecord, positions: seq<nat>)
    requires AreMatching(p, fr, positions)
    ensures positions == Matching(p.mapper, p.rules, fr)
  {
    var ps := Matching(p.mapper, p.rules, fr);
    MatchingPositions(p, fr);
    forall n: nat ensures n in positions <==> n in ps {
      if n >= |p.rules| {
        assert n !in positions && n !in ps;
      }
    }
    SamePositions(positions, ps);
  }

  ghost predicate CarriesRules(before: seq<RuleInfo>, after: seq<RuleInfo>, more: seq<RuleInfo>)
  {
    |after| == |before| + |more| && after[..|before|] == before
    && forall i :: 0 <= i < |more| ==> after[|before| + i] == more[i]
  }

  lemma RulesAppended(before: seq<RuleInfo>, after: seq<RuleInfo>, more: seq<RuleInfo>)
    ensures CarriesRules(before, after, more) <==> after == before + more
  {
    if CarriesRules(before, after, more) {
      assert after == after[..|before|] + after[|before|..];
      assert after[|before|..] == more;
    }
  }

  ghost predicate LeadsTo(h: ActionHandler, actions: seq<string>, x: Extras, y: Extras)
  {
    exists states :: IsActionRun(h, actions, states) && states[0] == x && states[|states| - 1] == y
  }

  lemma ActionsLead(h: ActionHandler, actions: seq<string>, x: Extras, y: Extras)
    ensures LeadsTo(h, actions, x, y) <==> y == h.RunAll(actions, x)
  {
    if LeadsTo(h, actions, x, y) {
      var states :| IsActionRun(h, actions, states) && states[0] == x && states[|states| - 1] == y;
      RunIsRunAll(h, actions, states);
    }
    var states := RunExists(h, actions, x);
  }

  lemma InfosAt(p: Policy, fr: FlatRecord)
    ensures var ps, infos := Matching(p.mapper, p.rules, fr), Applying(p.mapper, p.rules, fr);
            |ps| == |infos| && forall i :: 0 <= i < |ps| ==> ps[i] < |p.rules| && infos[i] == p.rules[ps[i]].info
  {
    var ps := Matching(p.mapper, p.rules, fr);
    SameNumber(p.mapper, p.rules, fr);
    forall i | 0 <= i < |ps| ensures ps[i] < |p.rules| && Applying(p.mapper, p.rules, fr)[i] == p.rules[ps[i]].info {
      MatchingInfos(p.mapper, p.rules, fr, i);
    }
  }

  lemma CarriesAtAppends(p: Policy, before: seq<RuleInfo>, after: seq<RuleInfo>, ps: seq<nat>, infos: seq<RuleInfo>)
    requires |ps| == |infos| && forall i :: 0 <= i < |ps| ==> ps[i] < |p.rules| && infos[i] == p.rules[ps[i]].info
    ensures CarriesAt(p, before, after, ps) <==> after == before + infos
  {
    RulesAppended(before, after, infos);
    assert CarriesRules(before, after, infos) <==> CarriesAt(p, before, after, ps);
  }

  lemma CarriesOutcome(p: Policy, r: Record, out: Record, ps: seq<nat>, infos: seq<RuleInfo>)
    requires out.fr == r.fr && |ps| == |infos|
    requires forall i :: 0 <= i < |ps| ==> ps[i] < |p.rules| && infos[i] == p.rules[ps[i]].info
    ensures Carries(p, r, out, ps) <==> (infos != [] || p.mode == EnrichMode) && out == Enriched(p, r, infos)
  {
    CarriesAtAppends(p, r.rules, out.rules, ps, infos);
    ActionsInOrder(p, ps, infos, r.extras);
    ActionsLead(p.actions, ActionList(p, ps), r.extras, out.extras);
  }

  /** A record is passed on as `out` exactly if `out` is the decision on it. */
  lemma OutcomeIsDecision(p: Policy, r: Record, out: Record)
    ensures Outcome(p, r) == Some(out) <==> IsDecision(p, r, out)
  {
    var ps := Matching(p.mapper, p.rules, r.fr);
    MatchingPositions(p, r.fr);
    SameNumber(p.mapper, p.rules, r.fr);
    if out.fr == r.fr {
      InfosAt(p, r.fr);
      CarriesOutcome(p, r, out, ps, Applying(p.mapper, p.rules, r.fr));
    }
    if IsDecision(p, r, out) {
      var positions: seq<nat> :| AreMatching(p, r.fr, positions) && Carries(p, r, out, positions);
      PositionsUnique(p, r.fr, positions);
    }
  }

  /** A record is held back exactly if an enabled filter holds, or no rule matches and the mode is not `enrich`. */
  lemma HeldBackIff(p: Policy, r: Record)
    ensures Outcome(p, r).None? <==>
            SomeFilterHolds(p, r.fr)
            || (p.mode != EnrichMode
                && forall n :: 0 <= n < |p.rules| && p.rules[n].info.enabled && p.rules[n].condition.pred(r.fr) ==>
                     p.rules[n].info.prefilter != [] && p.mapper.MapStr("sf.type", r.fr) !in p.rules[n].info.prefilter)
  {
    var ps := Matching(p.mapper, p.rules, r.fr);
    MatchingPositions(p, r.fr);
    SameNumber(p.mapper, p.rules, r.fr);
    assert ps != [] ==> ps[0] in ps;
  }
}
