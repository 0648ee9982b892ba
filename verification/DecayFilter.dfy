/** The time-decaying filter, and the rate limit that the flattener builds on it. */
module DecayFilter {
  import opened Text
  import opened Clocks

  /** A hash value with the time it was first added. */
  datatype Entry = Entry(h: int, firstSeen: int)

  // ------------------------------------------------------------------
  // What the filter means: each hash on its own, purged by age.

  /** `Evict` carries the clock reading at which eviction ended. */
  datatype Op = Evict(t: int) | Add(h: int, t: int)

  /** A live entry: when it was created, and how often its hash was added since. */
  datatype Life = Life(first: int, count: nat)

  function Live(ops: seq<Op>, h: int, ttl: int): Option<Life>
  {
    if ops == [] then None else After(Live(ops[..|ops| - 1], h, ttl), ops[|ops| - 1], h, ttl)
  }

  function After(life: Option<Life>, op: Op, h: int, ttl: int): Option<Life>
  {
    match op
    case Evict(t) => if life.Some? && t - life.value.first >= ttl then None else life
    case Add(g, t) =>
      if g != h then life
      else
        match life
        case None => Some(Life(t, 1))
        case Some(l) => Some(Life(l.first, l.count + 1))
  }

  lemma LiveNext(ops: seq<Op>, op: Op, h: int, ttl: int)
    ensures Live(ops + [op], h, ttl) == After(Live(ops, h, ttl), op, h, ttl)
  {
    assert (ops + [op])[..|ops|] == ops;
  }

  // ------------------------------------------------------------------
  // The queue.

  predicate Has(q: seq<Entry>, h: int)
  {
    exists i :: 0 <= i < |q| && q[i].h == h
  }

  predicate DistinctHashes(q: seq<Entry>)
  {
    forall i, j :: 0 <= i < j < |q| ==> q[i].h != q[j].h
  }

  predicate SortedByAge(q: seq<Entry>)
  {
    forall i, j :: 0 <= i < j < |q| ==> q[i].firstSeen <= q[j].firstSeen
  }

  /** A full scan that keeps what is younger than `ttl`. */
  function Purge(q: seq<Entry>, t: int, ttl: int): seq<Entry>
  {
    if q == [] then [] else
      (if t - q[0].firstSeen < ttl then [q[0]] else []) + Purge(q[1..], t, ttl)
  }

  lemma {:induction false} PurgeNothing(q: seq<Entry>, t: int, ttl: int)
    requires forall i :: 0 <= i < |q| ==> t - q[i].firstSeen < ttl
    ensures Purge(q, t, ttl) == q
  {
    if q != [] {
      PurgeNothing(q[1..], t, ttl);
    }
  }

  /** Aged entries at the front of a sorted queue are all that a scan finds. */
  lemma {:induction false} PurgeFront(q: seq<Entry>, k: nat, t: int, ttl: int)
    requires SortedByAge(q) && k <= |q|
    requires forall i :: 0 <= i < k ==> t - q[i].firstSeen >= ttl
    requires k < |q| ==> t - q[k].firstSeen < ttl
    ensures Purge(q, t, ttl) == q[k..]
  {
    if k == 0 {
      PurgeNothing(q, t, ttl);
    } else {
      PurgeFront(q[1..], k - 1, t, ttl);
      assert q[1..][k - 1..] == q[k..];
    }
  }

  /** The map and the queue hold the live entries. */
  ghost predicate Holds(m: map<int, int>, q: seq<Entry>, ops: seq<Op>, ttl: int, h: int)
  {
    match Live(ops, h, ttl)
    case None => h !in m && !Has(q, h)
    case Some(life) => h in m && m[h] == life.count && Entry(h, life.first) in q
  }

  ghost predicate HoldsAll(m: map<int, int>, q: seq<Entry>, ops: seq<Op>, ttl: int)
  {
    forall h: int :: Holds(m, q, ops, ttl, h)
  }

  function Without(m: map<int, int>, h: int): map<int, int>
  {
    map g | g in m && g != h :: m[g]
  }

  /** Taking aged entries off the front follows the meaning of one eviction. */
  lemma EvictFollows(m: map<int, int>, q: seq<Entry>, ops: seq<Op>, ttl: int, k: nat, m': map<int, int>, t: int, h: int)
    requires DistinctHashes(q) && SortedByAge(q) && Holds(m, q, ops, ttl, h) && k <= |q|
    requires forall i :: 0 <= i < k ==> t - q[i].firstSeen >= ttl
    requires k < |q| ==> t - q[k].firstSeen < ttl
    requires h in m' <==> h in m && !Has(q[..k], h)
    requires h in m' ==> m'[h] == m[h]
    ensures Holds(m', q[k..], ops + [Evict(t)], ttl, h)
  {
    LiveNext(ops, Evict(t), h, ttl);
    match Live(ops, h, ttl)
    case None =>
      assert forall i :: 0 <= i < |q[k..]| ==> q[k..][i] == q[i + k];
    case Some(life) =>
      var i :| 0 <= i < |q| && q[i] == Entry(h, life.first);
      if i < k {
        assert q[..k][i].h == h;
        assert forall j :: 0 <= j < |q[k..]| ==> q[k..][j] == q[j + k];
      } else {
        assert q[k..][i - k] == q[i];
        assert forall j :: 0 <= j < k ==> q[..k][j].h != h;
      }
  }

  lemma EvictFollowsAll(m: map<int, int>, q: seq<Entry>, ops: seq<Op>, ttl: int, k: nat, m': map<int, int>, t: int)
    requires DistinctHashes(q) && SortedByAge(q) && HoldsAll(m, q, ops, ttl) && k <= |q| && IsLeft(m, m', q[..k])
    requires forall i :: 0 <= i < k ==> t - q[i].firstSeen >= ttl
    requires k < |q| ==> t - q[k].firstSeen < ttl
    ensures HoldsAll(m', q[k..], ops + [Evict(t)], ttl)
  {
    forall h: int ensures Holds(m', q[k..], ops + [Evict(t)], ttl, h) {
      assert Holds(m, q, ops, ttl, h);
      assert h in m' <==> h in m && !Has(q[..k], h);
      EvictFollows(m, q, ops, ttl, k, m', t, h);
    }
  }

  lemma AddFollows(m: map<int, int>, q: seq<Entry>, ops: seq<Op>, ttl: int, g: int, t: int, h: int)
    requires Holds(m, q, ops, ttl, h) && Holds(m, q, ops, ttl, g)
    ensures g !in m ==> Holds(m[g := 1], q + [Entry(g, t)], ops + [Add(g, t)], ttl, h)
    ensures g in m ==> Holds(m[g := m[g] + 1], q, ops + [Add(g, t)], ttl, h)
  {
    LiveNext(ops, Add(g, t), h, ttl);
    var q' := q + [Entry(g, t)];
    assert q'[|q|] == Entry(g, t);
    if Has(q', h) && h != g {
      var i :| 0 <= i < |q'| && q'[i].h == h;
      assert q[i].h == h;
    }
  }

  class Filter {
    var m: map<int, int>
    var q: seq<Entry>
    const ttl: int
    const clock: Clock
    ghost var ops: seq<Op>

    ghost predicate Valid()
      reads this, clock
    {
      DistinctHashes(q) && SortedByAge(q)
      && (forall i :: 0 <= i < |q| ==> q[i].firstSeen <= clock.now)
      && HoldsAll(m, q, ops, ttl)
    }

    constructor (ttl: int, clock: Clock)
      ensures Valid() && fresh(this) && ops == [] && this.ttl == ttl && this.clock == clock
    {
      this.ttl, this.clock := ttl, clock;
      m, q, ops := map[], [], [];
    }

    /** `evictAgedEntries`, which looks at the front only; every comparison reads the clock anew. */
    method EvictAgedEntries()
      requires Valid()
      modifies this, clock
      ensures Valid() && old(clock.now) <= clock.now
      ensures ops == old(ops) + [Evict(clock.now)]
      ensures q == Purge(old(q), clock.now, ttl)
    {
      ghost var q0, m0, ops0 := q, m, ops;
      ghost var k := RemoveAged();
      ops := ops + [Evict(clock.now)];
      PurgeFront(q0, k, clock.now, ttl);
      EvictFollowsAll(m0, q0, ops0, ttl, k, m, clock.now);
    }

    /** The loop: entries leave the front until one is young. */
    method RemoveAged() returns (ghost k: nat)
      modifies this`m, this`q, clock
      ensures old(clock.now) <= clock.now && k <= |old(q)| && q == old(q)[k..]
      ensures forall i :: 0 <= i < k ==> clock.now - old(q)[i].firstSeen >= ttl
      ensures k < |old(q)| ==> clock.now - old(q)[k].firstSeen < ttl
      ensures IsLeft(old(m), m, old(q)[..k])
    {
      k := 0;
      ghost var q0, m0 := q, m;
      while |q| > 0
        invariant k <= |q0| && q == q0[k..]
        invariant old(clock.now) <= clock.now
        invariant forall i :: 0 <= i < k ==> clock.now - q0[i].firstSeen >= ttl
        invariant IsLeft(m0, m, q0[..k])
        decreases |q|
      {
        var entry := q[0];
        var t := clock.Now();
        if t - entry.firstSeen < ttl {
          return;
        }
        NextIsLeft(m0, m, q0, k);
        q := q[1..];
        m := Without(m, entry.h);
        k := k + 1;
      }
    }

    /** `Add` reads the clock only for a new entry. */
    method Add(h: int)
      requires Valid()
      modifies this, clock
      ensures Valid() && old(clock.now) <= clock.now
      ensures ops == old(ops) + [Op.Add(h, clock.now)]
    {
      ghost var m0, q0, ops0 := m, q, ops;
      assert Holds(m0, q0, ops0, ttl, h);
      if h in m {
        m := m[h := m[h] + 1];
        ops := ops + [Op.Add(h, clock.now)];
        assert m == m0[h := m0[h] + 1];
      } else {
        m := m[h := 1];
        var t := clock.Now();
        q := q + [Entry(h, t)];
        ops := ops + [Op.Add(h, clock.now)];
        assert m == m0[h := 1] && q == q0 + [Entry(h, clock.now)];
      }
      forall g: int ensures Holds(m, q, ops, ttl, g) {
        assert Holds(m0, q0, ops0, ttl, g);
        AddFollows(m0, q0, ops0, ttl, h, clock.now, g);
      }
    }

    method Test(h: int) returns (seen: bool)
      requires Valid()
      modifies this, clock
      ensures Valid() && old(clock.now) <= clock.now
      ensures ops == old(ops) + [Evict(clock.now)]
      ensures seen == Live(ops, h, ttl).Some?
    {
      EvictAgedEntries();
      assert Holds(m, q, ops, ttl, h);
      seen := h in m;
    }

    /** Whether `h` was live when looked up; it is added either way. */
    method TestAndAdd(h: int) returns (seen: bool, ghost call: Call)
      requires Valid()
      modifies this, clock
      ensures Valid()
      ensures call.h == h && old(clock.now) <= call.tested <= call.added == clock.now
      ensures ops == old(ops) + OpsOf(call)
      ensures seen == Live(old(ops) + [Evict(call.tested)], h, ttl).Some?
    {
      EvictAgedEntries();
      ghost var t := clock.now;
      assert Holds(m, q, ops, ttl, h);
      seen := h in m;
      Add(h);
      call := Call(h, t, clock.now);
      assert old(ops) + [Evict(t)] + [Op.Add(h, clock.now)] == old(ops) + OpsOf(call);
    }

    method Count(h: int) returns (n: int)
      requires Valid()
      modifies this, clock
      ensures Valid() && old(clock.now) <= clock.now
      ensures ops == old(ops) + [Evict(clock.now)]
      ensures match Live(ops, h, ttl) case None => n == 0 case Some(life) => n == life.count
    {
      EvictAgedEntries();
      assert Holds(m, q, ops, ttl, h);
      n := if h in m then m[h] else 0;
    }
  }

  /** `m` is what is left of `m0` without the hashes of `gone`. */
  ghost predicate IsLeft(m0: map<int, int>, m: map<int, int>, gone: seq<Entry>)
  {
    forall h: int :: (h in m <==> h in m0 && !Has(gone, h)) && (h in m ==> m[h] == m0[h])
  }

  lemma NextIsLeft(m0: map<int, int>, m: map<int, int>, q: seq<Entry>, k: nat)
    requires k < |q| && IsLeft(m0, m, q[..k])
    ensures IsLeft(m0, Without(m, q[k].h), q[..k + 1])
  {
    FrontGone(q, k);
  }

  lemma FrontGone(q: seq<Entry>, k: nat)
    requires k < |q|
    ensures forall h: int :: Has(q[..k + 1], h) <==> Has(q[..k], h) || h == q[k].h
  {
    forall h: int ensures Has(q[..k + 1], h) <==> Has(q[..k], h) || h == q[k].h {
      if Has(q[..k], h) {
        var i :| 0 <= i < k && q[..k][i].h == h;
        assert q[..k + 1][i].h == h;
      }
      if h == q[k].h {
        assert q[..k + 1][k].h == h;
      }
      if Has(q[..k + 1], h) && h != q[k].h {
        var i :| 0 <= i < k + 1 && q[..k + 1][i].h == h;
        assert q[..k][i].h == h;
      }
    }
  }

  // ------------------------------------------------------------------
  // Whole runs of `TestAndAdd`.

  /** One call: its hash, the clock at the lookup, and the clock when it returned. */
  datatype Call = Call(h: int, tested: int, added: int)

  function OpsOf(c: Call): seq<Op>
  {
    [Evict(c.tested), Op.Add(c.h, c.added)]
  }

  function AllOps(calls: seq<Call>): seq<Op>
  {
    if calls == [] then [] else AllOps(calls[..|calls| - 1]) + OpsOf(calls[|calls| - 1])
  }

  predicate WellTimed(calls: seq<Call>)
  {
    (forall i :: 0 <= i < |calls| ==> calls[i].tested <= calls[i].added)
    && (forall i, j :: 0 <= i < j < |calls| ==> calls[i].added <= calls[j].tested)
  }

  /** Call `j` found no live entry. */
  predicate IsNew(calls: seq<Call>, j: nat, ttl: int)
    requires j < |calls|
  {
    Live(AllOps(calls[..j]) + [Evict(calls[j].tested)], calls[j].h, ttl).None?
  }

  lemma LiveAfterCall(calls: seq<Call>, j: nat, h: int, ttl: int)
    requires j < |calls|
    ensures Live(AllOps(calls[..j + 1]), h, ttl) ==
            After(Live(AllOps(calls[..j]) + [Evict(calls[j].tested)], h, ttl), Op.Add(calls[j].h, calls[j].added), h, ttl)
  {
    var ops, c := AllOps(calls[..j]), calls[j];
    assert calls[..j + 1][..j] == calls[..j];
    assert AllOps(calls[..j + 1]) == ops + [Evict(c.tested)] + [Op.Add(c.h, c.added)];
    LiveNext(ops + [Evict(c.tested)], Op.Add(c.h, c.added), h, ttl);
  }

  /** Call `i` created an entry for `h` that is younger than `ttl` at time `t`. */
  predicate Covers(calls: seq<Call>, i: nat, h: int, t: int, ttl: int)
    requires i < |calls|
  {
    calls[i].h == h && IsNew(calls, i, ttl) && t - calls[i].added < ttl
  }

  predicate Covered(calls: seq<Call>, j: nat, h: int, t: int, ttl: int)
    requires j <= |calls|
  {
    exists i :: 0 <= i < j && Covers(calls, i, h, t, ttl)
  }

  /** The only entry for a hash is that of the last call that found it new. */
  lemma {:induction false} LiveIsNewest(calls: seq<Call>, j: nat, h: int, ttl: int)
    requires j <= |calls|
    ensures match Live(AllOps(calls[..j]), h, ttl)
            case None => true
            case Some(life) => exists i :: 0 <= i < j && calls[i].h == h && IsNew(calls, i, ttl) && calls[i].added == life.first
  {
    if j > 0 {
      LiveIsNewest(calls, j - 1, h, ttl);
      LiveAfterCall(calls, j - 1, h, ttl);
      LiveNext(AllOps(calls[..j - 1]), Evict(calls[j - 1].tested), h, ttl);
    }
  }

  /** An entry that is young at time `t` has not been evicted before. */
  lemma {:induction false} YoungIsLive(calls: seq<Call>, i: nat, j: nat, t: int, ttl: int)
    requires WellTimed(calls) && i < j <= |calls| && IsNew(calls, i, ttl) && t - calls[i].added < ttl
    requires forall k :: 0 <= k < j ==> calls[k].added <= t
    ensures Live(AllOps(calls[..j]), calls[i].h, ttl).Some? && Live(AllOps(calls[..j]), calls[i].h, ttl).value.first == calls[i].added
  {
    var h, c := calls[i].h, calls[j - 1];
    LiveAfterCall(calls, j - 1, h, ttl);
    if i < j - 1 {
      YoungIsLive(calls, i, j - 1, t, ttl);
      LiveNext(AllOps(calls[..j - 1]), Evict(c.tested), h, ttl);
      assert c.tested <= c.added;
    }
  }

  /** After `j` calls, an entry is live and young at a later time `t` exactly if one of the calls covers it. */
  lemma LiveMeansCovered(calls: seq<Call>, j: nat, h: int, t: int, ttl: int)
    requires WellTimed(calls) && j <= |calls|
    requires forall i :: 0 <= i < j ==> calls[i].added <= t
    ensures Live(AllOps(calls[..j]) + [Evict(t)], h, ttl).Some? <==> Covered(calls, j, h, t, ttl)
  {
    LiveNext(AllOps(calls[..j]), Evict(t), h, ttl);
    LiveIsNewest(calls, j, h, ttl);
    var live := Live(AllOps(calls[..j]), h, ttl);
    if live.Some? && t - live.value.first < ttl {
      var i :| 0 <= i < j && calls[i].h == h && IsNew(calls, i, ttl) && calls[i].added == live.value.first;
      assert Covers(calls, i, h, t, ttl);
    }
    if Covered(calls, j, h, t, ttl) {
      var i :| 0 <= i < j && Covers(calls, i, h, t, ttl);
      YoungIsLive(calls, i, j, t, ttl);
    }
  }

  /**
   A call finds its hash new exactly when no earlier call that found it new is younger
   than `ttl`. Calls that found it live do not matter: repeats never extend the window.
   */
  lemma NewIffUncovered(calls: seq<Call>, j: nat, ttl: int)
    requires WellTimed(calls) && j < |calls|
    ensures IsNew(calls, j, ttl) <==> !Covered(calls, j, calls[j].h, calls[j].tested, ttl)
  {
    LiveMeansCovered(calls, j, calls[j].h, calls[j].tested, ttl);
  }

  /** Two calls with the same hash that both found it new are at least `ttl` apart. */
  lemma RateLimit(calls: seq<Call>, i: nat, j: nat, ttl: int)
    requires WellTimed(calls) && i < j < |calls| && calls[i].h == calls[j].h
    requires IsNew(calls, i, ttl) && IsNew(calls, j, ttl)
    ensures calls[j].tested - calls[i].added >= ttl
  {
    NewIffUncovered(calls, j, ttl);
    assert !Covers(calls, i, calls[j].h, calls[j].tested, ttl);
  }

  // ------------------------------------------------------------------
  // The flattener's output.

  class OutChannel<T> {
    var log: seq<T>
    var closed: bool

    constructor ()
      ensures log == [] && !closed
    {
      log, closed := [], false;
    }
  }

  /** The records whose calls found their hash new. */
  function Forwarded<T>(records: seq<T>, calls: seq<Call>, ttl: int): seq<T>
    requires |records| == |calls|
  {
    if records == [] then [] else
      var n := |records| - 1;
      Forwarded(records[..n], calls[..n], ttl) + if IsNew(calls, n, ttl) then [records[n]] else []
  }

  lemma {:induction false} ForwardedNext<T>(records: seq<T>, calls: seq<Call>, r: T, c: Call, ttl: int)
    requires |records| == |calls|
    ensures Forwarded(records + [r], calls + [c], ttl) ==
            Forwarded(records, calls, ttl)
            + if Live(AllOps(calls) + [Evict(c.tested)], c.h, ttl).None? then [r] else []
  {
    assert (records + [r])[..|records|] == records && (calls + [c])[..|calls|] == calls;
  }

  // What was forwarded, by positions.

  /** The calls before `k` that found their hash new. */
  ghost function NewBefore(calls: seq<Call>, k: nat, ttl: int): seq<nat>
    requires k <= |calls|
  {
    if k == 0 then [] else NewBefore(calls, k - 1, ttl) + if IsNew(calls, k - 1, ttl) then [k - 1] else []
  }

  ghost predicate AscendingBelow(ps: seq<nat>, k: nat)
  {
    (forall i, j :: 0 <= i < j < |ps| ==> ps[i] < ps[j]) && forall i :: 0 <= i < |ps| ==> ps[i] < k
  }

  lemma {:induction false} NewAscend(calls: seq<Call>, k: nat, ttl: int)
    requires k <= |calls|
    ensures AscendingBelow(NewBefore(calls, k, ttl), k)
  {
    if k > 0 {
      NewAscend(calls, k - 1, ttl);
    }
  }

  lemma InWithOne(ps: seq<nat>, more: seq<nat>, n: nat)
    ensures n in ps + more <==> n in ps || n in more
  {
  }

  lemma NewNext(calls: seq<Call>, k: nat, ttl: int, n: nat)
    requires 0 < k <= |calls|
    ensures n in NewBefore(calls, k, ttl) <==> n in NewBefore(calls, k - 1, ttl) || (n == k - 1 && IsNew(calls, n, ttl))
  {
    var isNew := IsNew(calls, k - 1, ttl);
    InWithOne(NewBefore(calls, k - 1, ttl), if isNew then [k - 1] else [], n);
  }

  lemma {:induction false} NewMember(calls: seq<Call>, k: nat, ttl: int, n: nat)
    requires k <= |calls|
    ensures n in NewBefore(calls, k, ttl) <==> n < k && IsNew(calls, n, ttl)
  {
    if k > 0 {
      NewMember(calls, k - 1, ttl, n);
      NewNext(calls, k, ttl, n);
    }
  }

  ghost predicate Picks<T(!new)>(log: seq<T>, records: seq<T>, ps: seq<nat>)
  {
    |log| == |ps| && forall i :: 0 <= i < |ps| ==> ps[i] < |records| && log[i] == records[ps[i]]
  }

  lemma PrefixNew(calls: seq<Call>, k: nat, ttl: int)
    requires k < |calls|
    ensures IsNew(calls[..k + 1], k, ttl) == IsNew(calls, k, ttl)
  {
    assert calls[..k + 1][..k] == calls[..k];
  }

  lemma {:induction false} ForwardedArePicked<T(!new)>(records: seq<T>, calls: seq<Call>, ttl: int, k: nat)
    requires |records| == |calls| && k <= |calls|
    ensures Picks(Forwarded(records[..k], calls[..k], ttl), records, NewBefore(calls, k, ttl))
  {
    if k > 0 {
      ForwardedArePicked(records, calls, ttl, k - 1);
      assert records[..k][..k - 1] == records[..k - 1] && calls[..k][..k - 1] == calls[..k - 1];
      PrefixNew(calls, k - 1, ttl);
    }
  }

  /** Record `n` repeats one that was forwarded less than `ttl` before. */
  ghost predicate Repeats(calls: seq<Call>, ps: seq<nat>, ttl: int, n: nat)
    requires n < |calls|
  {
    exists i :: i in ps && i < n && calls[i].h == calls[n].h && calls[n].tested - calls[i].added < ttl
  }

  /**
   The log is the records at certain positions, in order: a record is there exactly
   when no record with its hash was forwarded less than `ttl` before.
   */
  ghost predicate LimitedAt<T(!new)>(log: seq<T>, records: seq<T>, calls: seq<Call>, ttl: int, ps: seq<nat>)
    requires |records| == |calls|
  {
    AscendingBelow(ps, |records|) && Picks(log, records, ps)
    && forall n :: 0 <= n < |records| ==> (n in ps <==> !Repeats(calls, ps, ttl, n))
  }

  ghost predicate IsLimited<T(!new)>(log: seq<T>, records: seq<T>, calls: seq<Call>, ttl: int)
    requires |records| == |calls|
  {
    exists ps :: LimitedAt(log, records, calls, ttl, ps)
  }

  lemma CoveredRepeats(calls: seq<Call>, ps: seq<nat>, ttl: int, n: nat)
    requires n < |calls| && forall i: nat :: i in ps <==> i < |calls| && IsNew(calls, i, ttl)
    ensures Covered(calls, n, calls[n].h, calls[n].tested, ttl) <==> Repeats(calls, ps, ttl, n)
  {
    if Covered(calls, n, calls[n].h, calls[n].tested, ttl) {
      var i :| 0 <= i < n && Covers(calls, i, calls[n].h, calls[n].tested, ttl);
      assert i in ps;
    }
    if Repeats(calls, ps, ttl, n) {
      var i :| i in ps && i < n && calls[i].h == calls[n].h && calls[n].tested - calls[i].added < ttl;
      assert Covers(calls, i, calls[n].h, calls[n].tested, ttl);
    }
  }

  lemma ForwardedIsLimited<T(!new)>(records: seq<T>, calls: seq<Call>, ttl: int)
    requires |records| == |calls| && WellTimed(calls)
    ensures IsLimited(Forwarded(records, calls, ttl), records, calls, ttl)
  {
    var k := |calls|;
    var ps := NewBefore(calls, k, ttl);
    NewAscend(calls, k, ttl);
    ForwardedArePicked(records, calls, ttl, k);
    assert records[..k] == records && calls[..k] == calls;
    forall n: nat ensures n in ps <==> n < |calls| && IsNew(calls, n, ttl) {
      NewMember(calls, k, ttl, n);
    }
    forall n | 0 <= n < |records| ensures n in ps <==> !Repeats(calls, ps, ttl, n) {
      NewIffUncovered(calls, n, ttl);
      CoveredRepeats(calls, ps, ttl, n);
    }
    assert LimitedAt(Forwarded(records, calls, ttl), records, calls, ttl, ps);
  }

  /** Two records with one hash that were both forwarded are at least `ttl` apart. */
  lemma ForwardedApart<T(!new)>(log: seq<T>, records: seq<T>, calls: seq<Call>, ttl: int, ps: seq<nat>, i: nat, j: nat)
    requires |records| == |calls| && LimitedAt(log, records, calls, ttl, ps)
    requires i < j < |ps| && calls[ps[i]].h == calls[ps[j]].h
    ensures calls[ps[j]].tested - calls[ps[i]].added >= ttl
  {
    assert ps[i] in ps && ps[j] in ps && !Repeats(calls, ps, ttl, ps[j]);
  }

  class Flattener<T(!new, ==)> {
    const outCh: seq<OutChannel<T>>
    const filter: Filter?
    const hash: T -> int
    ghost var records: seq<T>
    ghost var calls: seq<Call>

    /** The filter has seen exactly the calls recorded. */
    ghost predicate Linked()
      reads this, filter, if filter != null then {filter.clock} else {}
    {
      filter != null ==>
        filter.Valid() && |calls| == |records| && WellTimed(calls) && filter.ops == AllOps(calls)
        && (forall i :: 0 <= i < |calls| ==> calls[i].h == hash(records[i]) && calls[i].added <= filter.clock.now)
    }

    ghost predicate Valid()
      reads this, filter, if filter != null then {filter.clock} else {}, set i | 0 <= i < |outCh| :: outCh[i]
    {
      (forall i, j :: 0 <= i < j < |outCh| ==> outCh[i] != outCh[j])
      && Linked() && forall i :: 0 <= i < |outCh| ==> outCh[i].log == Sent()
    }

    /** What each output channel has been sent. */
    ghost function Sent(): seq<T>
      reads this, filter
    {
      if filter == null || |calls| != |records| then records else Forwarded(records, calls, filter.ttl)
    }

    constructor (outs: nat, filter: Filter?, hash: T -> int)
      requires filter != null ==> filter.Valid() && filter.ops == []
      ensures Valid() && records == [] && calls == [] && this.filter == filter && this.hash == hash
      ensures fresh(this) && |outCh| == outs && forall i :: 0 <= i < outs ==> fresh(outCh[i]) && !outCh[i].closed
    {
      var chans: seq<OutChannel<T>> := [];
      while |chans| < outs
        invariant |chans| <= outs
        invariant forall i :: 0 <= i < |chans| ==> fresh(chans[i]) && chans[i].log == [] && !chans[i].closed
        invariant forall i, j :: 0 <= i < j < |chans| ==> chans[i] != chans[j]
      {
        var c := new OutChannel<T>();
        chans := chans + [c];
      }
      this.outCh, this.filter, this.hash := chans, filter, hash;
      records, calls := [], [];
    }

    /** Whether the record passes the filter, if there is one. */
    method Admit(r: T) returns (send: bool)
      requires Linked()
      modifies this, filter, if filter != null then {filter.clock} else {}
      ensures Linked() && records == old(records) + [r]
      ensures filter != null ==>
                |calls| == |old(calls)| + 1 && calls[..|old(calls)|] == old(calls)
                && LastCall(r, old(if filter == null then 0 else filter.clock.now), filter.clock.now)
      ensures Sent() == old(Sent()) + if send then [r] else []
    {
      send := true;
      if filter != null {
        send := Ask(r);
      } else {
        records := records + [r];
      }
    }

    /** The latest call was made for `r` between the two clock readings. */
    ghost predicate LastCall(r: T, before: int, after: int)
      reads this
    {
      calls != [] && var c := calls[|calls| - 1]; c.h == hash(r) && before <= c.tested <= c.added == after
    }

    /** By the log of every output channel, no record is forwarded that repeats one forwarded less than `ttl` before. */
    ghost predicate Limited()
      reads this, filter, set i | 0 <= i < |outCh| :: outCh[i]
    {
      if filter == null then forall i :: 0 <= i < |outCh| ==> outCh[i].log == records
      else |records| == |calls| && forall i :: 0 <= i < |outCh| ==> IsLimited(outCh[i].log, records, calls, filter.ttl)
    }

    lemma LogsAreLimited()
      requires Valid()
      ensures Limited()
    {
      if filter != null {
        ForwardedIsLimited(records, calls, filter.ttl);
      }
    }

    method Ask(r: T) returns (send: bool)
      requires filter != null && Linked()
      modifies this, filter, filter.clock
      ensures Linked() && records == old(records) + [r]
      ensures |calls| == |old(calls)| + 1 && calls[..|old(calls)|] == old(calls)
      ensures LastCall(r, old(filter.clock.now), filter.clock.now)
      ensures Sent() == old(Sent()) + if send then [r] else []
    {
      var seen, call := filter.TestAndAdd(hash(r));
      ForwardedNext(records, calls, r, call, filter.ttl);
      assert (calls + [call])[..|calls|] == calls;
      records, calls := records + [r], calls + [call];
      send := !seen;
    }

    /** `out`: with the filter on, a record whose hash is live goes nowhere. */
    method Out(r: T)
      requires Valid() && forall i :: 0 <= i < |outCh| ==> !outCh[i].closed
      modifies this, filter, if filter != null then {filter.clock} else {}, set i | 0 <= i < |outCh| :: outCh[i]
      ensures Valid() && records == old(records) + [r]
      ensures filter != null ==>
                |calls| == |old(calls)| + 1 && calls[..|old(calls)|] == old(calls)
                && LastCall(r, old(if filter == null then 0 else filter.clock.now), filter.clock.now)
      ensures Limited()
      ensures forall i :: 0 <= i < |outCh| ==> !outCh[i].closed
    {
      ghost var before := Sent();
      var send := Admit(r);
      assert forall i :: 0 <= i < |outCh| ==> outCh[i].log == before && !outCh[i].closed;
      if send {
        Send(r);
        assert Linked() && Sent() == before + [r];
      } else {
        assert Sent() == before;
      }
      LogsAreLimited();
    }

    method Send(r: T)
      requires forall i, j :: 0 <= i < j < |outCh| ==> outCh[i] != outCh[j]
      modifies set i | 0 <= i < |outCh| :: outCh[i]
      ensures forall i :: 0 <= i < |outCh| ==> outCh[i].log == old(outCh[i].log) + [r] && outCh[i].closed == old(outCh[i].closed)
    {
      for k := 0 to |outCh|
        invariant forall i :: 0 <= i < |outCh| ==>
          outCh[i].log == (if i < k then old(outCh[i].log) + [r] else old(outCh[i].log)) && outCh[i].closed == old(outCh[i].closed)
      {
        outCh[k].log := outCh[k].log + [r];
      }
    }

    method Cleanup()
      requires forall i, j :: 0 <= i < j < |outCh| ==> outCh[i] != outCh[j]
      requires forall i :: 0 <= i < |outCh| ==> !outCh[i].closed
      modifies set i | 0 <= i < |outCh| :: outCh[i]
      ensures forall i :: 0 <= i < |outCh| ==> outCh[i].closed && outCh[i].log == old(outCh[i].log)
    {
      for k := 0 to |outCh|
        invariant forall i :: 0 <= i < |outCh| ==> outCh[i].closed == (i < k) && outCh[i].log == old(outCh[i].log)
      {
        outCh[k].closed := true;
      }
    }
  }
}
