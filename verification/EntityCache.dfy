/** The tables of entities seen since the last header, and the memo of ancestor chains. */
module EntityCache {
  import opened Text
  import opened Sets

  /** A process is known by its creation time and its host pid. */
  datatype Oid = Oid(createTs: int, hpid: int)

  datatype ObjectState = REUP | CREATED | MODIFIED

  datatype Process = Process(oid: Oid, state: ObjectState, poid: Option<Oid>, contId: Option<string>, exe: string, exeArgs: string)

  datatype Container = Container(id: string, podId: Option<string>)

  datatype Pod = Pod(id: string, name: string)

  datatype File = File(oid: string, contId: Option<string>, path: string)

  /** The latest process object in each state. */
  datatype Slots = Slots(reup: Option<Process>, created: Option<Process>, modified: Option<Process>)
  {
    function Get(s: ObjectState): Option<Process>
    {
      match s
      case REUP => reup
      case CREATED => created
      case MODIFIED => modified
    }

    function Set(p: Process): Slots
    {
      match p.state
      case REUP => this.(reup := Some(p))
      case CREATED => this.(created := Some(p))
      case MODIFIED => this.(modified := Some(p))
    }
  }

  const EMPTY := Slots(None, None, None)

  function SlotsOf(procs: map<Oid, Slots>, id: Oid): Slots
  {
    if id in procs then procs[id] else EMPTY
  }

  function Preferred(s: Slots): Option<Process>
  {
    if s.modified.Some? then s.modified else if s.created.Some? then s.created else s.reup
  }

  function Rank(s: ObjectState): nat
  {
    match s
    case REUP => 0
    case CREATED => 1
    case MODIFIED => 2
  }

  /** The object of the highest-ranking state for which there is one. */
  ghost predicate IsBest(s: Slots, p: Option<Process>)
  {
    (p.None? <==> forall t: ObjectState :: s.Get(t).None?)
    && forall t: ObjectState :: s.Get(t).Some? && (forall u: ObjectState :: s.Get(u).Some? ==> Rank(u) <= Rank(t)) ==> p == s.Get(t)
  }

  lemma PreferredIsBest(s: Slots)
    ensures IsBest(s, Preferred(s))
  {
    assert s.Get(REUP) == s.reup && s.Get(CREATED) == s.created && s.Get(MODIFIED) == s.modified;
  }

  type Lookup = Oid -> Option<Process>

  function InTable(procs: map<Oid, Slots>): Lookup
  {
    id => Preferred(SlotsOf(procs, id))
  }

  // ------------------------------------------------------------------
  // Ancestor chains.

  function Parent(get: Lookup, id: Oid): Option<Oid>
  {
    match get(id)
    case None => None
    case Some(p) => p.poid
  }

  /** Following parents from `id` stops within `n` steps. */
  predicate Ends(get: Lookup, id: Oid, n: nat)
    decreases n
  {
    Parent(get, id).None? || (n > 0 && Ends(get, Parent(get, id).value, n - 1))
  }

  /** The process, its parent, and so on, as far as they are known. */
  function Chain(get: Lookup, id: Oid, n: nat): seq<Process>
    requires Ends(get, id, n)
    decreases n
  {
    match get(id)
    case None => []
    case Some(p) => if p.poid.None? then [p] else [p] + Chain(get, p.poid.value, n - 1)
  }

  /** Every process asked for on the way, up to one that is missing. */
  function Asked(get: Lookup, id: Oid, n: nat): (ids: seq<Oid>)
    requires Ends(get, id, n)
    ensures ids != [] && ids[0] == id
    decreases n
  {
    if Parent(get, id).None? then [id] else [id] + Asked(get, Parent(get, id).value, n - 1)
  }

  ghost predicate Terminates(get: Lookup, id: Oid)
  {
    exists n: nat :: Ends(get, id, n)
  }

  ghost function Ancestors(get: Lookup, id: Oid): seq<Process>
    requires Terminates(get, id)
  {
    var n: nat :| Ends(get, id, n);
    Chain(get, id, n)
  }

  lemma {:induction false} BoundIrrelevant(get: Lookup, id: Oid, m: nat, n: nat)
    requires Ends(get, id, m) && Ends(get, id, n)
    ensures Chain(get, id, m) == Chain(get, id, n) && Asked(get, id, m) == Asked(get, id, n)
    decreases m
  {
    if Parent(get, id).Some? {
      BoundIrrelevant(get, Parent(get, id).value, m - 1, n - 1);
    }
  }

  lemma AncestorsAre(get: Lookup, id: Oid, n: nat)
    requires Ends(get, id, n)
    ensures Terminates(get, id) && Ancestors(get, id) == Chain(get, id, n)
  {
    var m: nat :| Ends(get, id, m) && Ancestors(get, id) == Chain(get, id, m);
    BoundIrrelevant(get, id, m, n);
  }

  /** `ps` starts with the process of `id`, and each process is followed by its parent, as long as that is known. */
  ghost predicate IsChain(get: Lookup, id: Oid, ps: seq<Process>)
  {
    if ps == [] then get(id).None?
    else
      get(id) == Some(ps[0])
      && (forall i :: 0 <= i < |ps| - 1 ==> ps[i].poid.Some? && get(ps[i].poid.value) == Some(ps[i + 1]))
      && (ps[|ps| - 1].poid.Some? ==> get(ps[|ps| - 1].poid.value).None?)
  }

  lemma {:induction false} ChainMeans(get: Lookup, id: Oid, n: nat)
    requires Ends(get, id, n)
    ensures IsChain(get, id, Chain(get, id, n))
    decreases n
  {
    var ps := Chain(get, id, n);
    if Parent(get, id).Some? {
      var rest := Chain(get, Parent(get, id).value, n - 1);
      ChainMeans(get, Parent(get, id).value, n - 1);
      assert ps == [get(id).value] + rest;
      forall i | 0 <= i < |ps| - 1 ensures ps[i].poid.Some? && get(ps[i].poid.value) == Some(ps[i + 1]) {
        assert i > 0 ==> ps[i] == rest[i - 1] && ps[i + 1] == rest[i - 1 + 1];
      }
    }
  }

  /** A chain depends only on what was asked for. */
  lemma {:induction false} ChainFrame(get: Lookup, get': Lookup, id: Oid, n: nat)
    requires Ends(get, id, n)
    requires forall o :: o in Asked(get, id, n) ==> get'(o) == get(o)
    ensures Ends(get', id, n) && Chain(get', id, n) == Chain(get, id, n)
    decreases n
  {
    assert id in Asked(get, id, n);
    if Parent(get, id).Some? {
      var more := Asked(get, Parent(get, id).value, n - 1);
      forall o | o in more ensures get'(o) == get(o) {
        assert o in [id] + more;
      }
      ChainFrame(get, get', Parent(get, id).value, n - 1);
    }
  }

  /** From any process asked for, the rest of the walk is the walk from there. */
  lemma {:induction false} AskedSuffix(get: Lookup, id: Oid, n: nat, i: nat)
    requires Ends(get, id, n) && i < |Asked(get, id, n)|
    ensures i <= n && Ends(get, Asked(get, id, n)[i], n - i)
    ensures Asked(get, Asked(get, id, n)[i], n - i) == Asked(get, id, n)[i..]
    decreases n
  {
    if i > 0 {
      AskedSuffix(get, Parent(get, id).value, n - 1, i - 1);
    }
  }

  /** No process is asked for twice. */
  lemma AskedDistinct(get: Lookup, id: Oid, n: nat, i: nat, j: nat)
    requires Ends(get, id, n) && i < j < |Asked(get, id, n)|
    ensures Asked(get, id, n)[i] != Asked(get, id, n)[j]
  {
    var ids := Asked(get, id, n);
    AskedSuffix(get, id, n, i);
    AskedSuffix(get, id, n, j);
    assert |ids[i..]| != |ids[j..]|;
    if ids[i] == ids[j] {
      BoundIrrelevant(get, ids[i], n - i, n - j);
    }
  }

  /** Every process asked for but a missing last one is in the chain. */
  lemma {:induction false} AskedAndFound(get: Lookup, id: Oid, n: nat)
    requires Ends(get, id, n)
    ensures var ids, chain := Asked(get, id, n), Chain(get, id, n);
            |chain| <= |ids| <= |chain| + 1
            && forall i :: 0 <= i < |chain| ==> get(ids[i]) == Some(chain[i])
    decreases n
  {
    if Parent(get, id).Some? {
      AskedAndFound(get, Parent(get, id).value, n - 1);
    }
  }

  /** A chain has no more processes than the table has identifiers. */
  lemma ChainIsShort(procs: map<Oid, Slots>, id: Oid, n: nat)
    requires Ends(InTable(procs), id, n)
    ensures |Chain(InTable(procs), id, n)| <= |procs|
  {
    var get := InTable(procs);
    var ids, chain := Asked(get, id, n), Chain(get, id, n);
    AskedAndFound(get, id, n);
    forall i, j | 0 <= i < j < |chain| ensures ids[i] != ids[j] {
      AskedDistinct(get, id, n, i, j);
    }
    forall i | 0 <= i < |chain| ensures ids[i] in procs.Keys {
      assert get(ids[i]) == Some(chain[i]);
    }
    DistinctFit(ids[..|chain|], procs.Keys);
  }

  lemma {:induction false} EnoughSteps(get: Lookup, id: Oid, n: nat)
    requires Ends(get, id, n)
    ensures Ends(get, id, |Chain(get, id, n)|)
    decreases n
  {
    if Parent(get, id).Some? {
      EnoughSteps(get, Parent(get, id).value, n - 1);
    }
  }

  lemma {:induction false} MoreSteps(get: Lookup, id: Oid, m: nat, n: nat)
    requires Ends(get, id, m) && m <= n
    ensures Ends(get, id, n)
    decreases m
  {
    if Parent(get, id).Some? {
      MoreSteps(get, Parent(get, id).value, m - 1, n - 1);
    }
  }

  /** The recursion ends exactly when it ends within as many steps as the table has identifiers. */
  lemma TerminationIsDecidable(procs: map<Oid, Slots>, id: Oid)
    ensures Terminates(InTable(procs), id) <==> Ends(InTable(procs), id, |procs|)
  {
    var get := InTable(procs);
    if Terminates(get, id) {
      var n: nat :| Ends(get, id, n);
      ChainIsShort(procs, id, n);
      EnoughSteps(get, id, n);
      MoreSteps(get, id, |Chain(get, id, n)|, |procs|);
    }
  }

  /** Two processes that name each other as parents have no end. */
  lemma {:induction false} CycleNeverEnds(get: Lookup, a: Oid, b: Oid, n: nat)
    requires Parent(get, a) == Some(b) && Parent(get, b) == Some(a)
    ensures !Ends(get, a, n)
    decreases n
  {
    if n > 0 {
      CycleNeverEnds(get, b, a, n - 1);
    }
  }

  // ------------------------------------------------------------------
  // The tables.

  class SFTables {
    var contTable: map<string, Container>
    var podTable: map<string, Pod>
    var procTable: map<Oid, Slots>
    var fileTable: map<string, File>
    var ptreeTable: map<Oid, seq<Process>>
    /** For each memoised chain, the processes as they stood when it was first asked for. */
    ghost var snapshots: map<Oid, map<Oid, Slots>>

    ghost predicate Valid()
      reads this
    {
      ptreeTable.Keys == snapshots.Keys
      && forall id :: id in snapshots ==>
           Terminates(InTable(snapshots[id]), id) && ptreeTable[id] == Ancestors(InTable(snapshots[id]), id)
    }

    ghost predicate IsEmpty()
      reads this
    {
      contTable == map[] && podTable == map[] && procTable == map[] && fileTable == map[] && snapshots == map[]
    }

    constructor ()
      ensures Valid() && IsEmpty()
    {
      contTable, podTable, procTable, fileTable, ptreeTable := map[], map[], map[], map[], map[];
      snapshots := map[];
    }

    method Reset()
      modifies this
      ensures Valid() && IsEmpty()
    {
      contTable, podTable, procTable, fileTable, ptreeTable := map[], map[], map[], map[], map[];
      snapshots := map[];
    }

    function GetCont(id: string): Option<Container>
      reads this
    {
      if id in contTable then Some(contTable[id]) else None
    }

    method SetCont(id: string, o: Container)
      requires Valid()
      modifies this`contTable
      ensures Valid() && contTable == old(contTable)[id := o]
    {
      contTable := contTable[id := o];
    }

    function GetPod(id: string): Option<Pod>
      reads this
    {
      if id in podTable then Some(podTable[id]) else None
    }

    method SetPod(id: string, o: Pod)
      requires Valid()
      modifies this`podTable
      ensures Valid() && podTable == old(podTable)[id := o]
    {
      podTable := podTable[id := o];
    }

    function GetFile(id: string): Option<File>
      reads this
    {
      if id in fileTable then Some(fileTable[id]) else None
    }

    method SetFile(id: string, o: File)
      requires Valid()
      modifies this`fileTable
      ensures Valid() && fileTable == old(fileTable)[id := o]
    {
      fileTable := fileTable[id := o];
    }

    /** The modified object before the created one before the one repeated at start-up. */
    function GetProc(id: Oid): (p: Option<Process>)
      reads this
      ensures p == InTable(procTable)(id) && IsBest(SlotsOf(procTable, id), p)
    {
      PreferredIsBest(SlotsOf(procTable, id));
      if id in procTable then
        if procTable[id].modified.Some? then procTable[id].modified
        else if procTable[id].created.Some? then procTable[id].created
        else procTable[id].reup
      else None
    }

    /** Replaces one slot, and leaves memoised chains as they are. */
    method SetProc(id: Oid, o: Process)
      requires Valid()
      modifies this`procTable
      ensures Valid() && procTable.Keys == old(procTable.Keys) + {id}
      ensures forall k, s :: SlotsOf(procTable, k).Get(s) ==
                             if k == id && s == o.state then Some(o) else SlotsOf(old(procTable), k).Get(s)
    {
      if id in procTable {
        procTable := procTable[id := procTable[id].Set(o)];
      } else {
        procTable := procTable[id := EMPTY.Set(o)];
      }
    }

    /** `getProcProv`, whose recursion `n` bounds. */
    method GetProcProv(id: Oid, ghost n: nat) returns (ptree: seq<Process>)
      requires Ends(InTable(procTable), id, n)
      ensures ptree == Chain(InTable(procTable), id, n) && IsChain(InTable(procTable), id, ptree)
      decreases n
    {
      ChainMeans(InTable(procTable), id, n);
      var p := GetProc(id);
      if p.Some? {
        if p.value.poid.Some? {
          var more := GetProcProv(p.value.poid.value, n - 1);
          return [p.value] + more;
        }
        return [p.value];
      }
      return [];
    }

    /**
     The chain as it stood when `id` was first asked for since the last reset, which
     may not be what the table says now.
     */
    method GetPtree(id: Oid) returns (ptree: seq<Process>)
      requires Valid() && (id in snapshots || Terminates(InTable(procTable), id))
      modifies this`ptreeTable, this`snapshots
      ensures Valid()
      ensures snapshots == if id in old(snapshots) then old(snapshots) else old(snapshots)[id := procTable]
      ensures ptree == Ancestors(InTable(snapshots[id]), id)
      ensures Terminates(InTable(procTable), id) ==>
                (ptree == Ancestors(InTable(procTable), id) <==> Untouched(snapshots[id], procTable, id))
    {
      if id in ptreeTable {
        if Terminates(InTable(procTable), id) {
          MemoIsCurrent(snapshots[id], procTable, id);
        }
        return ptreeTable[id];
      }
      ghost var n: nat :| Ends(InTable(procTable), id, n);
      ptree := GetProcProv(id, n);
      AncestorsAre(InTable(procTable), id, n);
      ptreeTable := ptreeTable[id := ptree];
      snapshots := snapshots[id := procTable];
    }
  }

  /** Equal chains can only come from equal answers to everything asked on the way. */
  lemma {:induction false} SameChainSameAnswers(get: Lookup, get': Lookup, id: Oid, m: nat, n: nat)
    requires Ends(get, id, m) && Ends(get', id, n) && Chain(get, id, m) == Chain(get', id, n)
    ensures forall o :: o in Asked(get, id, m) ==> get'(o) == get(o)
    decreases m
  {
    if get(id).Some? {
      assert Chain(get, id, m)[0] == Chain(get', id, n)[0];
      if Parent(get, id).Some? {
        var up := Parent(get, id).value;
        assert Chain(get, up, m - 1) == Chain(get, id, m)[1..] && Chain(get', up, n - 1) == Chain(get', id, n)[1..];
        SameChainSameAnswers(get, get', up, m - 1, n - 1);
      }
    }
  }

  /** Every process asked for when the chain of `id` was built, and the missing end, is as it was. */
  ghost predicate Untouched(before: map<Oid, Slots>, now: map<Oid, Slots>, id: Oid)
  {
    forall n: nat :: Ends(InTable(before), id, n) ==> SameAnswers(before, now, Asked(InTable(before), id, n))
  }

  ghost predicate SameAnswers(before: map<Oid, Slots>, now: map<Oid, Slots>, ids: seq<Oid>)
  {
    forall o :: o in ids ==> InTable(now)(o) == InTable(before)(o)
  }

  /** A memoised chain is the current one exactly if nothing it was built from has changed. */
  lemma MemoIsCurrent(before: map<Oid, Slots>, now: map<Oid, Slots>, id: Oid)
    requires Terminates(InTable(before), id) && Terminates(InTable(now), id)
    ensures Ancestors(InTable(before), id) == Ancestors(InTable(now), id) <==> Untouched(before, now, id)
  {
    var k: nat :| Ends(InTable(now), id, k);
    AncestorsAre(InTable(now), id, k);
    forall n: nat | Ends(InTable(before), id, n)
      ensures Ancestors(InTable(before), id) == Ancestors(InTable(now), id) <==>
              SameAnswers(before, now, Asked(InTable(before), id, n))
    {
      AncestorsAre(InTable(before), id, n);
      if SameAnswers(before, now, Asked(InTable(before), id, n)) {
        ChainFrame(InTable(before), InTable(now), id, n);
        AncestorsAre(InTable(now), id, n);
      }
      if Chain(InTable(before), id, n) == Chain(InTable(now), id, k) {
        SameChainSameAnswers(InTable(before), InTable(now), id, n, k);
      }
    }
  }

  /** What was built from unchanged processes ends now if it ended then. */
  lemma UntouchedEnds(before: map<Oid, Slots>, now: map<Oid, Slots>, id: Oid)
    requires Terminates(InTable(before), id) && Untouched(before, now, id)
    ensures Terminates(InTable(now), id)
  {
    var n: nat :| Ends(InTable(before), id, n);
    assert SameAnswers(before, now, Asked(InTable(before), id, n));
    ChainFrame(InTable(before), InTable(now), id, n);
  }

  lemma OneStep(get: Lookup, child: Oid, parent: Oid)
    requires Parent(get, child) == Some(parent) && Parent(get, parent).None?
    ensures Terminates(get, child) && Ancestors(get, child) == [get(child).value] + (if get(parent).Some? then [get(parent).value] else [])
  {
    assert Ends(get, parent, 0) && Ends(get, child, 1);
    AncestorsAre(get, child, 1);
  }

  /**
   A process is stored and its chain asked for; its parent arrives, and the chain is
   asked for again: whatever else the tables hold, the parent stays out of the answer.
   */
  method LateParent(t: SFTables, child: Process, parent: Process) returns (first: seq<Process>, second: seq<Process>)
    requires t.Valid() && child.oid !in t.snapshots
    requires child.oid !in t.procTable && parent.oid !in t.procTable && child.oid != parent.oid
    requires child.poid == Some(parent.oid) && parent.poid.None?
    modifies t
    ensures t.Valid() && first == [child] && second == first
    ensures Terminates(InTable(t.procTable), child.oid) && Ancestors(InTable(t.procTable), child.oid) == [child, parent]
  {
    t.SetProc(child.oid, child);
    OnlySlot(t.procTable, child);
    MissingSlot(t.procTable, parent.oid);
    OneStep(InTable(t.procTable), child.oid, parent.oid);
    first := t.GetPtree(child.oid);
    t.SetProc(parent.oid, parent);
    OnlySlot(t.procTable, parent);
    OnlySlot(t.procTable, child);
    OneStep(InTable(t.procTable), child.oid, parent.oid);
    second := t.GetPtree(child.oid);
  }

  lemma OnlySlot(procs: map<Oid, Slots>, p: Process)
    requires forall s: ObjectState :: SlotsOf(procs, p.oid).Get(s) == if s == p.state then Some(p) else None
    ensures InTable(procs)(p.oid) == Some(p)
  {
    assert SlotsOf(procs, p.oid).Get(p.state) == Some(p);
    assert forall s: ObjectState :: s != p.state ==> SlotsOf(procs, p.oid).Get(s) == None;
    var slots := SlotsOf(procs, p.oid);
    assert slots.Get(REUP) == slots.reup && slots.Get(CREATED) == slots.created && slots.Get(MODIFIED) == slots.modified;
  }

  lemma MissingSlot(procs: map<Oid, Slots>, id: Oid)
    requires forall s: ObjectState :: SlotsOf(procs, id).Get(s) == None
    ensures InTable(procs)(id) == None
  {
    var slots := SlotsOf(procs, id);
    assert slots.Get(REUP) == slots.reup && slots.Get(CREATED) == slots.created && slots.Get(MODIFIED) == slots.modified;
  }
}
