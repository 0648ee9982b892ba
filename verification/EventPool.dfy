/** The pool of events kept for each container, and the alerts raised from it. */
module EventPool {
  import opened Text
  import opened Clocks
  import opened Sets

  /** Low, medium and high. */
  type Severity = s: int | 0 <= s <= 2

  const SEVERITY_LOW: Severity := 0

  datatype RuleTag = RuleTag(name: string, priority: Severity)

  /** A record as the pool sees it: its semantic hash and the rules that fired. */
  datatype Event = Event(id: int, hash: int, rules: seq<RuleTag>)

  function Max(a: Severity, b: Severity): Severity
  {
    if a < b then b else a
  }

  function NamesOf(rules: seq<RuleTag>): set<string>
  {
    if rules == [] then {} else NamesOf(rules[..|rules| - 1]) + {rules[|rules| - 1].name}
  }

  function TopOf(s: Severity, rules: seq<RuleTag>): Severity
  {
    if rules == [] then s else Max(TopOf(s, rules[..|rules| - 1]), rules[|rules| - 1].priority)
  }

  function HashesOf(events: seq<Event>): set<int>
  {
    set i | 0 <= i < |events| :: events[i].hash
  }

  function AllNames(events: seq<Event>): set<string>
  {
    if events == [] then {} else AllNames(events[..|events| - 1]) + NamesOf(events[|events| - 1].rules)
  }

  lemma {:induction false} NamesAre(rules: seq<RuleTag>, x: string)
    ensures x in NamesOf(rules) <==> exists i :: 0 <= i < |rules| && rules[i].name == x
  {
    if rules != [] {
      NamesAre(rules[..|rules| - 1], x);
    }
  }

  /** The highest of all. */
  lemma {:induction false} TopIsHighest(s: Severity, rules: seq<RuleTag>)
    ensures TopOf(s, rules) >= s && forall i :: 0 <= i < |rules| ==> TopOf(s, rules) >= rules[i].priority
    ensures TopOf(s, rules) == s || exists i :: 0 <= i < |rules| && rules[i].priority == TopOf(s, rules)
  {
    if rules != [] {
      TopIsHighest(s, rules[..|rules| - 1]);
    }
  }

  lemma {:induction false} AllNamesAre(events: seq<Event>, x: string)
    ensures x in AllNames(events) <==> exists k :: 0 <= k < |events| && x in NamesOf(events[k].rules)
  {
    if events != [] {
      AllNamesAre(events[..|events| - 1], x);
    }
  }

  lemma {:induction false} TopGrows(s: Severity, rules: seq<RuleTag>)
    ensures TopOf(s, rules) >= s
  {
    if rules != [] {
      TopGrows(s, rules[..|rules| - 1]);
    }
  }

  lemma NextEvent(events: seq<Event>, e: Event)
    ensures HashesOf(events + [e]) == HashesOf(events) + {e.hash}
    ensures AllNames(events + [e]) == AllNames(events) + NamesOf(e.rules)
  {
    assert (events + [e])[..|events|] == events;
    assert (events + [e])[|events|] == e;
    forall h | h in HashesOf(events) ensures h in HashesOf(events + [e]) {
      var i :| 0 <= i < |events| && events[i].hash == h;
      assert (events + [e])[i].hash == h;
    }
  }

  /** `all` is made of `written` and `lost`, each in its own order. */
  predicate Interleaves(all: seq<Event>, written: seq<Event>, lost: seq<Event>)
    decreases |all|
  {
    if all == [] then written == [] && lost == []
    else
      var n, e := |all| - 1, all[|all| - 1];
      (written != [] && written[|written| - 1] == e && Interleaves(all[..n], written[..|written| - 1], lost))
      || (lost != [] && lost[|lost| - 1] == e && Interleaves(all[..n], written, lost[..|lost| - 1]))
  }

  lemma {:induction false} MoreWritten(all: seq<Event>, written: seq<Event>, lost: seq<Event>, more: seq<Event>)
    requires Interleaves(all, written, lost)
    ensures Interleaves(all + more, written + more, lost)
  {
    if more == [] {
      assert all + more == all && written + more == written;
    } else {
      var n := |more| - 1;
      MoreWritten(all, written, lost, more[..n]);
      assert (all + more)[..|all| + n] == all + more[..n] && (written + more)[..|written| + n] == written + more[..n];
    }
  }

  lemma {:induction false} MoreLost(all: seq<Event>, written: seq<Event>, lost: seq<Event>, more: seq<Event>)
    requires Interleaves(all, written, lost)
    ensures Interleaves(all + more, written, lost + more)
  {
    if more == [] {
      assert all + more == all && lost + more == lost;
    } else {
      var n := |more| - 1;
      MoreLost(all, written, lost, more[..n]);
      assert (all + more)[..|all| + n] == all + more[..n] && (lost + more)[..|lost| + n] == lost + more[..n];
    }
  }

  /** While no event is lost, the file holds them all, once each and in order. */
  lemma {:induction false} NoneLost(all: seq<Event>, written: seq<Event>)
    requires Interleaves(all, written, [])
    ensures written == all
  {
    if all != [] {
      NoneLost(all[..|all| - 1], written[..|written| - 1]);
    }
  }

  /** However many are lost, none is written twice or made up. */
  lemma {:induction false} NothingMadeUp(all: seq<Event>, written: seq<Event>, lost: seq<Event>)
    requires Interleaves(all, written, lost)
    ensures multiset(all) == multiset(written) + multiset(lost)
    decreases |all|
  {
    if all != [] {
      var n, e := |all| - 1, all[|all| - 1];
      assert all == all[..n] + [e];
      if written != [] && written[|written| - 1] == e && Interleaves(all[..n], written[..|written| - 1], lost) {
        NothingMadeUp(all[..n], written[..|written| - 1], lost);
        assert written == written[..|written| - 1] + [e];
      } else {
        NothingMadeUp(all[..n], written, lost[..|lost| - 1]);
        assert lost == lost[..|lost| - 1] + [e];
      }
    }
  }

  /** The alerts since the last reset are paid for by hashes, rule names and severity. */
  ghost predicate Bounded(recent: seq<Event>, added: set<int>, names: set<string>, top: int, alerts: int)
  {
    added <= HashesOf(recent) && names == AllNames(recent) && alerts <= |added| + |names| + top
  }

  /** One more event: an alert has one of three reasons, each of which raises the bound. */
  lemma BoundJoin(recent: seq<Event>, added: set<int>, names: set<string>, top: Severity, alerts: int,
                  e: Event, added': set<int>, alert: bool)
    requires Bounded(recent, added, names, top, alerts)
    requires added' == added || (added' == added + {e.hash} && e.hash !in added)
    requires alert ==> added' != added || names + NamesOf(e.rules) != names || TopOf(top, e.rules) != top
    ensures Bounded(recent + [e], added', names + NamesOf(e.rules), TopOf(top, e.rules), alerts + if alert then 1 else 0)
  {
    NextEvent(recent, e);
    TopGrows(top, e.rules);
    SubsetSize(names, names + NamesOf(e.rules));
    SubsetSize(added, added');
  }

  /** The event names a rule the pool has not seen, or has a higher severity. */
  predicate IsNews(e: Event, names: set<string>, top: Severity)
  {
    !(NamesOf(e.rules) <= names) || TopOf(top, e.rules) > top
  }

  /** Some rule of the event has a name the pool has not seen, or a severity above its highest. */
  lemma NewsIff(e: Event, names: set<string>, top: Severity)
    ensures IsNews(e, names, top) <==>
            exists i :: 0 <= i < |e.rules| && (e.rules[i].name !in names || e.rules[i].priority > top)
  {
    TopIsHighest(top, e.rules);
    if !(NamesOf(e.rules) <= names) {
      var x :| x in NamesOf(e.rules) && x !in names;
      NamesAre(e.rules, x);
    }
    forall i | 0 <= i < |e.rules| ensures e.rules[i].name in NamesOf(e.rules) {
      NamesAre(e.rules, e.rules[i].name);
    }
  }

  lemma NewsMeans(e: Event, names: set<string>, top: Severity)
    ensures IsNews(e, names, top) <==> names + NamesOf(e.rules) != names || TopOf(top, e.rules) != top
  {
    TopGrows(top, e.rules);
  }

  /** What has become of a pool's events. */
  datatype Ledger = Ledger(arrived: seq<Event>, written: seq<Event>, pooled: seq<Event>, lost: seq<Event>)

  const NOTHING := Ledger([], [], [], [])

  /**
   The books after one more event. When a flush is due and succeeds, the whole pool is
   written; an aged pool is empty afterwards, and loses what a failing flush has left.
   */
  function Booked(l: Ledger, e: Event, due: bool, aged: bool, fails: bool): Ledger
  {
    var arrived, pooled := l.arrived + [e], l.pooled + [e];
    if due && !fails then Ledger(arrived, l.written + pooled, [], l.lost)
    else if aged then Ledger(arrived, l.written, [], l.lost + pooled)
    else Ledger(arrived, l.written, pooled, l.lost)
  }

  class EventPool {
    var events: seq<Event>
    /** The hashes added to the Bloom filter. */
    var filter: set<int>
    var ruleTypes: set<string>
    var topSeverity: Severity
    /** A new pool has the zero time here, which is longer ago than any limit. */
    var lastFlushTime: Option<int>
    /** The file. */
    var written: seq<Event>

    /** All events added, those of them no longer pooled, those added since the last reset, the alerts raised since then, and events thrown away. */
    ghost var arrived: seq<Event>
    ghost var settled: seq<Event>
    ghost var recent: seq<Event>
    ghost var alerts: nat
    ghost var lost: seq<Event>

    ghost predicate Valid()
      reads this
    {
      arrived == settled + events && Interleaves(settled, written, lost)
      && IsBounded()
    }

    constructor ()
      ensures Valid() && View() == NOTHING && IsReset() && lastFlushTime == None
    {
      events, ruleTypes, topSeverity, lastFlushTime, written := [], {}, SEVERITY_LOW, None, [];
      filter := {};
      arrived, settled, recent, alerts, lost := [], [], [], 0, [];
    }

    ghost function View(): Ledger
      reads this
    {
      Ledger(arrived, written, events, lost)
    }

    /** `State` */
    function State(): (int, Severity)
      reads this
    {
      (|ruleTypes|, topSeverity)
    }

    predicate Aged(now: int, maxAge: int)
      reads this
    {
      lastFlushTime.None? || now - lastFlushTime.value > maxAge
    }

    predicate ReachedCapacity(capacity: int)
      reads this
    {
      |events| >= capacity
    }

    /** `Flush`: all pooled events are appended to the file, or none when the file system fails. */
    method Flush(clock: Clock, fails: bool)
      requires Valid()
      modifies this, clock
      ensures Valid() && filter == old(filter) && recent == old(recent) && alerts == old(alerts) && lost == old(lost)
      ensures arrived == old(arrived) && topSeverity == old(topSeverity) && old(clock.now) <= clock.now
      ensures fails ==> written == old(written) && events == old(events)
      ensures !fails ==> written == old(written + events) && events == []
      ensures lastFlushTime == if fails then old(lastFlushTime) else Some(clock.now)
    {
      if fails {
        return;
      }
      MoreWritten(settled, written, lost, events);
      settled := settled + events;
      written := written + events;
      events := [];
      var now := clock.Now();
      lastFlushTime := Some(now);
    }

    /** `Reset`: what is still pooled is dropped. */
    method Reset(clock: Clock)
      requires Valid()
      modifies this, clock
      ensures Valid() && IsReset()
      ensures arrived == old(arrived) && written == old(written) && lost == old(lost + events)
      ensures old(clock.now) <= clock.now && lastFlushTime == Some(clock.now)
    {
      MoreLost(settled, written, lost, events);
      settled := settled + events;
      lost := lost + events;
      events, ruleTypes, topSeverity := [], {}, SEVERITY_LOW;
      filter := {};
      recent, alerts := [], 0;
      var now := clock.Now();
      lastFlushTime := Some(now);
    }

    /** The rule names and severities of one event. */
    method AddRules(rules: seq<RuleTag>)
      modifies this`ruleTypes, this`topSeverity
      ensures ruleTypes == old(ruleTypes) + NamesOf(rules)
      ensures topSeverity == TopOf(old(topSeverity), rules)
    {
      ghost var names, top := ruleTypes, topSeverity;
      for i := 0 to |rules|
        invariant ruleTypes == names + NamesOf(rules[..i])
        invariant topSeverity == TopOf(top, rules[..i])
      {
        assert rules[..i + 1][..i] == rules[..i];
        ruleTypes := ruleTypes + {rules[i].name};
        topSeverity := Max(topSeverity, rules[i].priority);
      }
      assert rules[..|rules|] == rules;
    }

    /** A Bloom filter has no false negatives; what it answers otherwise is open. */
    method Contains(h: int) returns (b: bool)
      ensures h in filter ==> b
    {
      b :| h in filter ==> b;
    }

    /** Whether the filter has not seen `h`; it has from now on. */
    method Unseen(h: int) returns (isNew: bool)
      modifies this`filter
      ensures isNew ==> h !in old(filter) && filter == old(filter) + {h}
      ensures !isNew ==> filter == old(filter)
    {
      var seen := Contains(h);
      if !seen {
        filter := filter + {h};
      }
      isNew := !seen;
    }

    /** Notes an event's rules and hash; an alert is a new hash, a new rule name or a higher severity. */
    method Note(e: Event) returns (alert: bool)
      modifies this`ruleTypes, this`topSeverity, this`filter
      ensures ruleTypes == old(ruleTypes) + NamesOf(e.rules) && topSeverity == TopOf(old(topSeverity), e.rules)
      ensures filter == old(filter) || (e.hash !in old(filter) && filter == old(filter) + {e.hash})
      ensures alert <==> filter != old(filter) || ruleTypes != old(ruleTypes) || topSeverity != old(topSeverity)
    {
      var before := State();
      ghost var names := ruleTypes;
      AddRules(e.rules);
      SubsetSize(names, ruleTypes);
      alert := Unseen(e.hash);
      var after := State();
      if before != after {
        alert := true;
      }
    }

    ghost predicate IsBounded()
      reads this
    {
      Bounded(recent, filter, ruleTypes, topSeverity, alerts)
    }

    /** Notes an event, and keeps count of the alerts. */
    method Tally(e: Event) returns (alert: bool)
      requires IsBounded()
      modifies this`ruleTypes, this`topSeverity, this`recent, this`alerts, this`filter
      ensures IsBounded()
      ensures recent == old(recent) + [e] && alerts == old(alerts) + if alert then 1 else 0
      ensures IsNews(e, old(ruleTypes), old(topSeverity)) ==> alert
      ensures alert ==> e.hash !in old(filter) || IsNews(e, old(ruleTypes), old(topSeverity))
    {
      ghost var names, top, hashes := ruleTypes, topSeverity, filter;
      alert := Note(e);
      NewsMeans(e, names, top);
      BoundJoin(recent, hashes, names, top, alerts, e, filter, alert);
      recent := recent + [e];
      alerts := alerts + if alert then 1 else 0;
    }

    /** The first half of `addEvent`: the event joins the pool, and may raise an alert. */
    method Join(e: Event) returns (alert: bool)
      requires Valid()
      modifies this`events, this`ruleTypes, this`topSeverity, this`arrived, this`recent, this`alerts, this`filter
      ensures Valid()
      ensures events == old(events) + [e] && arrived == old(arrived) + [e] && recent == old(recent) + [e]
      ensures alerts == old(alerts) + if alert then 1 else 0
      ensures IsNews(e, old(ruleTypes), old(topSeverity)) ==> alert
      ensures alert ==> e.hash !in old(filter) || IsNews(e, old(ruleTypes), old(topSeverity))
    {
      alert := Tally(e);
      assert settled + (events + [e]) == settled + events + [e];
      events := events + [e];
      arrived := arrived + [e];
    }

    /**
     `addEvent`: a flush is due when an alert is raised, the pool is full or it is aged at the
     clock reading `read`; the pool is reset exactly when it is aged.
     */
    method AddEvent(e: Event, clock: Clock, capacity: int, maxAge: int, fails: bool) returns (alert: bool, ghost read: int)
      requires Valid()
      modifies this, clock
      ensures Valid() && old(clock.now) <= read <= clock.now
      ensures arrived == old(arrived) + [e]
      ensures var aged := old(lastFlushTime.None? || read - lastFlushTime.value > maxAge);
              var due := alert || |old(events)| + 1 >= capacity || aged;
              && written == old(written) + (if due && !fails then old(events) + [e] else [])
              && lost == old(lost) + (if aged && fails then old(events) + [e] else [])
              && events == (if aged || (due && !fails) then [] else old(events) + [e])
      ensures View() == Booked(old(View()), e, alert || |old(events)| + 1 >= capacity || old(Aged(read, maxAge)), old(Aged(read, maxAge)), fails)
      ensures (exists i :: 0 <= i < |e.rules| && (e.rules[i].name !in old(ruleTypes) || e.rules[i].priority > old(topSeverity))) ==> alert
      ensures alert ==>
                e.hash !in old(filter)
                || exists i :: 0 <= i < |e.rules| && (e.rules[i].name !in old(ruleTypes) || e.rules[i].priority > old(topSeverity))
      ensures old(Aged(read, maxAge)) ==> IsReset()
      ensures var aged := old(lastFlushTime.None? || read - lastFlushTime.value > maxAge);
              if aged || ((alert || |old(events)| + 1 >= capacity) && !fails) then
                lastFlushTime.Some? && read <= lastFlushTime.value <= clock.now
              else lastFlushTime == old(lastFlushTime)
      ensures !old(Aged(read, maxAge)) ==> recent == old(recent) + [e] && alerts == old(alerts) + if alert then 1 else 0
    {
      NewsIff(e, ruleTypes, topSeverity);
      alert := Join(e);
      var full := ReachedCapacity(capacity);
      var now := clock.Now();
      read := now;
      var aged := Aged(now, maxAge);
      if alert || full || aged {
        Flush(clock, fails);
        assert lost + [] == lost;
        if aged {
          Reset(clock);
        }
      }
    }

    /** All counters start again. */
    ghost predicate IsReset()
      reads this
    {
      events == [] && filter == {} && ruleTypes == {} && topSeverity == SEVERITY_LOW && recent == [] && alerts == 0
    }

    /** The alerts since the last reset are few, whatever the Bloom filter answers. */
    lemma AlertsAreFew()
      requires Valid()
      ensures alerts <= |HashesOf(recent)| + |AllNames(recent)| + 2
    {
      AlertBound(recent, filter, ruleTypes, topSeverity, alerts);
    }

    /** Every event is written once, lost once or still pooled. */
    lemma NothingVanishes()
      requires Valid()
      ensures multiset(arrived) == multiset(written) + multiset(lost) + multiset(events)
      ensures lost == [] ==> arrived == written + events
    {
      NothingMadeUp(settled, written, lost);
      if lost == [] {
        NoneLost(settled, written);
      }
    }
  }

  /** One pool a container. */
  class OccurrenceEncoder {
    var pools: map<string, EventPool>
    const clock: Clock
    const capacity: int
    const maxAge: int

    ghost predicate Valid()
      reads this, pools.Values
    {
      (forall c :: c in pools ==> pools[c].Valid())
      && (forall c, d :: c in pools && d in pools && c != d ==> pools[c] != pools[d])
    }

    constructor (clock: Clock, capacity: int, maxAge: int)
      ensures Valid() && pools == map[] && this.clock == clock && this.capacity == capacity && this.maxAge == maxAge
    {
      this.clock, this.capacity, this.maxAge := clock, capacity, maxAge;
      pools := map[];
    }

    /** The books of a container; one without a pool has none yet. */
    ghost function ViewOf(cid: string): Ledger
      reads this, pools.Values
    {
      if cid in pools then pools[cid].View() else NOTHING
    }

    ghost predicate IsAged(cid: string, now: int)
      reads this, pools.Values
    {
      cid in pools ==> pools[cid].Aged(now, maxAge)
    }

    /** `getEventPool` */
    method GetEventPool(cid: string) returns (ep: EventPool)
      requires Valid()
      modifies this
      ensures Valid() && cid in pools && pools[cid] == ep && pools.Keys == old(pools.Keys) + {cid}
      ensures forall c :: c in pools ==> if c in old(pools) then pools[c] == old(pools[c]) else fresh(pools[c])
      ensures forall c :: ViewOf(c) == old(ViewOf(c))
      ensures forall now :: IsAged(cid, now) <==> old(IsAged(cid, now))
    {
      if cid in pools {
        return pools[cid];
      }
      ep := new EventPool();
      pools := pools[cid := ep];
    }

    /** An event goes to the pool of its container, and touches no other. A new pool is always aged. */
    method AddEvent(cid: string, e: Event, fails: bool) returns (alert: bool, ghost read: int)
      requires Valid()
      modifies this, pools.Values, clock
      ensures Valid() && pools.Keys == old(pools.Keys) + {cid}
      ensures forall c :: c != cid ==> ViewOf(c) == old(ViewOf(c))
      ensures var before, aged := old(ViewOf(cid)), old(IsAged(cid, read));
              ViewOf(cid) == Booked(before, e, alert || |before.pooled| + 1 >= capacity || aged, aged, fails)
    {
      var ep := GetEventPool(cid);
      alert, read := AddTo(cid, e, fails);
    }

    method AddTo(cid: string, e: Event, fails: bool) returns (alert: bool, ghost read: int)
      requires Valid() && cid in pools
      modifies pools[cid], clock
      ensures Valid()
      ensures forall c :: c != cid ==> ViewOf(c) == old(ViewOf(c))
      ensures var before, aged := old(ViewOf(cid)), old(IsAged(cid, read));
              ViewOf(cid) == Booked(before, e, alert || |before.pooled| + 1 >= capacity || aged, aged, fails)
    {
      alert, read := pools[cid].AddEvent(e, clock, capacity, maxAge, fails);
    }
  }

  /** After a flush that was due fewer events than the capacity are pooled. */
  lemma PoolStaysSmall(l: Ledger, e: Event, alert: bool, aged: bool, capacity: int)
    ensures var after := Booked(l, e, alert || |l.pooled| + 1 >= capacity || aged, aged, false);
            after.lost == l.lost && (after.pooled == [] || |after.pooled| < capacity)
  {
  }

  /** What `Valid` bounds: the alerts between two resets. */
  lemma AlertBound(recent: seq<Event>, added: set<int>, names: set<string>, top: Severity, alerts: int)
    requires Bounded(recent, added, names, top, alerts)
    ensures alerts <= |HashesOf(recent)| + |AllNames(recent)| + 2
  {
    SubsetSize(added, HashesOf(recent));
  }
}
