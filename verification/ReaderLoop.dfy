/** The reader's loop, proved to deliver what a scan of the log finds. */
module ReaderLoop {
  import opened Text
  import opened EntityCache
  import opened Reader
  import opened ReaderMeaning

  // ------------------------------------------------------------------
  // The tables and the log.

  ghost predicate TablesMatch(procs: map<Oid, Slots>, conts: map<string, Container>, pods: map<string, Pod>, files: map<string, File>,
                              log: seq<Rec>, trim: string -> string)
  {
    (forall id, s :: SlotsOf(procs, id).Get(s) == LatestProc(log, trim, id, s))
    && (forall id :: Found(conts, id) == LatestCont(log, id))
    && (forall id :: Found(pods, id) == LatestPod(log, id))
    && (forall id :: Found(files, id) == LatestFile(log, id))
  }

  function Found<T>(m: map<string, T>, id: string): Option<T>
  {
    if id in m then Some(m[id]) else None
  }

  ghost predicate SameLookup(get: Lookup, get': Lookup)
  {
    forall id :: get(id) == get'(id)
  }

  lemma TableLookup(procs: map<Oid, Slots>, log: seq<Rec>, trim: string -> string)
    requires forall id, s :: SlotsOf(procs, id).Get(s) == LatestProc(log, trim, id, s)
    ensures SameLookup(InTable(procs), ProcIn(log, trim))
  {
    forall id ensures InTable(procs)(id) == ProcIn(log, trim)(id) {
      var s := SlotsOf(procs, id);
      assert s.Get(REUP) == LatestProc(log, trim, id, REUP);
      assert s.Get(CREATED) == LatestProc(log, trim, id, CREATED);
      assert s.Get(MODIFIED) == LatestProc(log, trim, id, MODIFIED);
    }
  }

  lemma SameAncestors(get: Lookup, get': Lookup, id: Oid)
    requires SameLookup(get, get') && Terminates(get, id)
    ensures Terminates(get', id) && Ancestors(get', id) == Ancestors(get, id)
  {
    var n: nat :| Ends(get, id, n);
    ChainFrame(get, get', id, n);
    AncestorsAre(get, id, n);
    AncestorsAre(get', id, n);
  }

  /** One memoised chain belongs to the part of the log that was there when it was asked for. */
  ghost predicate SnapshotOk(snapshots: map<Oid, map<Oid, Slots>>, log: seq<Rec>, trim: string -> string, ent: bool, id: Oid)
  {
    match FirstAsked(log, trim, ent, id)
    case None => id !in snapshots
    case Some(k) => id in snapshots && SameLookup(InTable(snapshots[id]), ProcIn(log[..k], trim))
  }

  ghost predicate SnapshotsOk(snapshots: map<Oid, map<Oid, Slots>>, log: seq<Rec>, trim: string -> string, ent: bool)
  {
    forall id :: SnapshotOk(snapshots, log, trim, ent, id)
  }

  lemma FirstAskedNext(log: seq<Rec>, r: Rec, trim: string -> string, ent: bool, id: Oid)
    requires !r.HeaderRec?
    ensures FirstAsked(log + [r], trim, ent, id) ==
            if FirstAsked(log, trim, ent, id).Some? then FirstAsked(log, trim, ent, id)
            else if Asks(log, r, trim, ent) == Some(id) then Some(|log| + 1)
            else None
  {
    assert Init(log + [r]) == log;
  }

  /** What the memo must hold once `r` is handled. */
  lemma SnapshotsNext(snapshots: map<Oid, map<Oid, Slots>>, now: map<Oid, Slots>, after: map<Oid, map<Oid, Slots>>,
                      log: seq<Rec>, r: Rec, trim: string -> string, ent: bool)
    requires !r.HeaderRec? && SnapshotsOk(snapshots, log, trim, ent)
    requires SameLookup(InTable(now), ProcIn(log + [r], trim))
    requires match Asks(log, r, trim, ent)
             case None => after == snapshots
             case Some(id) => after == if id in snapshots then snapshots else snapshots[id := now]
    ensures SnapshotsOk(after, log + [r], trim, ent)
  {
    forall id ensures SnapshotOk(after, log + [r], trim, ent, id) {
      assert SnapshotOk(snapshots, log, trim, ent, id);
      FirstAskedNext(log, r, trim, ent, id);
      var k := FirstAsked(log, trim, ent, id);
      if k.Some? {
        assert (log + [r])[..k.value] == log[..k.value];
      } else {
        assert (log + [r])[..|log| + 1] == log + [r];
      }
    }
  }

  /** A record that stores nothing leaves every scan as it is. */
  lemma ScansStay(log: seq<Rec>, r: Rec, trim: string -> string)
    requires !r.HeaderRec?
    ensures !r.ProcRec? ==> forall id, s :: LatestProc(log + [r], trim, id, s) == LatestProc(log, trim, id, s)
    ensures !r.ContRec? ==> forall id :: LatestCont(log + [r], id) == LatestCont(log, id)
    ensures !r.PodRec? ==> forall id :: LatestPod(log + [r], id) == LatestPod(log, id)
    ensures !r.FileRec? ==> forall id :: LatestFile(log + [r], id) == LatestFile(log, id)
    ensures LastHeader(log + [r]) == LastHeader(log)
  {
    assert Init(log + [r]) == log;
  }

  /** The tables that match a log, and what they must be after one more record. */
  datatype Tables = Tables(procs: map<Oid, Slots>, conts: map<string, Container>, pods: map<string, Pod>, files: map<string, File>)

  ghost predicate Match(t: Tables, log: seq<Rec>, trim: string -> string)
  {
    TablesMatch(t.procs, t.conts, t.pods, t.files, log, trim)
  }

  lemma ContStored(t: Tables, log: seq<Rec>, c: Container, trim: string -> string)
    requires Match(t, log, trim)
    ensures Match(t.(conts := t.conts[c.id := c]), log + [ContRec(c)], trim)
  {
    ScansStay(log, ContRec(c), trim);
    assert Init(log + [ContRec(c)]) == log;
    var conts := t.conts[c.id := c];
    forall id ensures Found(conts, id) == LatestCont(log + [ContRec(c)], id) {
      assert Found(t.conts, id) == LatestCont(log, id);
    }
  }

  lemma PodStored(t: Tables, log: seq<Rec>, p: Pod, trim: string -> string)
    requires Match(t, log, trim)
    ensures Match(t.(pods := t.pods[p.id := p]), log + [PodRec(p)], trim)
  {
    ScansStay(log, PodRec(p), trim);
    assert Init(log + [PodRec(p)]) == log;
    var pods := t.pods[p.id := p];
    forall id ensures Found(pods, id) == LatestPod(log + [PodRec(p)], id) {
      assert Found(t.pods, id) == LatestPod(log, id);
    }
  }

  lemma FileStored(t: Tables, log: seq<Rec>, f: File, trim: string -> string)
    requires Match(t, log, trim)
    ensures Match(t.(files := t.files[f.oid := f]), log + [FileRec(f)], trim)
  {
    ScansStay(log, FileRec(f), trim);
    assert Init(log + [FileRec(f)]) == log;
    var files := t.files[f.oid := f];
    forall id ensures Found(files, id) == LatestFile(log + [FileRec(f)], id) {
      assert Found(t.files, id) == LatestFile(log, id);
    }
  }

  lemma ProcStored(t: Tables, procs: map<Oid, Slots>, log: seq<Rec>, raw: Process, trim: string -> string)
    requires Match(t, log, trim)
    requires forall id, s :: SlotsOf(procs, id).Get(s) ==
                             if id == raw.oid && s == raw.state then Some(Trimmed(raw, trim)) else SlotsOf(t.procs, id).Get(s)
    ensures Match(t.(procs := procs), log + [ProcRec(raw)], trim)
  {
    ScansStay(log, ProcRec(raw), trim);
    assert Init(log + [ProcRec(raw)]) == log;
    forall id, s ensures SlotsOf(procs, id).Get(s) == LatestProc(log + [ProcRec(raw)], trim, id, s) {
      assert SlotsOf(t.procs, id).Get(s) == LatestProc(log, trim, id, s);
    }
  }

  lemma NothingStored(t: Tables, log: seq<Rec>, r: Rec, trim: string -> string)
    requires Match(t, log, trim)
    requires !r.HeaderRec? && !r.ProcRec? && !r.ContRec? && !r.PodRec? && !r.FileRec?
    ensures Match(t, log + [r], trim)
  {
    ScansStay(log, r, trim);
  }

  lemma HeaderForgets(log: seq<Rec>, h: Header, trim: string -> string, ent: bool)
    ensures TablesMatch(map[], map[], map[], map[], log + [HeaderRec(h)], trim)
    ensures SnapshotsOk(map[], log + [HeaderRec(h)], trim, ent)
    ensures LastHeader(log + [HeaderRec(h)]) == Some(h)
  {
    assert Init(log + [HeaderRec(h)]) == log;
  }

  // ------------------------------------------------------------------
  // The reader.

  class SysFlowReader {
    var hdr: Option<Header>
    const tables: SFTables
    const entEnabled: bool
    const trim: string -> string
    /** What the handler has been given. */
    var delivered: seq<Ctx>
    ghost var log: seq<Rec>

    ghost function Stored(): Tables
      reads tables
    {
      Tables(tables.procTable, tables.contTable, tables.podTable, tables.fileTable)
    }

    ghost predicate Matches(seen: seq<Rec>)
      reads this, tables
    {
      Match(Stored(), seen, trim)
    }

    ghost predicate Valid()
      reads this, tables
    {
      tables.Valid() && hdr == LastHeader(log) && Matches(log)
      && SnapshotsOk(tables.snapshots, log, trim, entEnabled)
      && delivered == AllExpected(log, trim, entEnabled)
    }

    constructor (entEnabled: bool, trim: string -> string)
      ensures Valid() && fresh(tables) && log == [] && delivered == []
      ensures this.entEnabled == entEnabled && this.trim == trim
    {
      this.entEnabled, this.trim := entEnabled, trim;
      tables := new SFTables();
      hdr, delivered, log := None, [], [];
    }

    function GetContFromProc(p: Process): Option<Container>
      reads this, tables
    {
      if p.contId.Some? then tables.GetCont(p.contId.value) else None
    }

    function GetPodFromCont(c: Option<Container>): Option<Pod>
      reads this, tables
    {
      if c.Some? && c.value.podId.Some? then tables.GetPod(c.value.podId.value) else None
    }

    lemma Lookups(seen: seq<Rec>)
      requires Matches(seen)
      ensures SameLookup(InTable(tables.procTable), ProcIn(seen, trim))
      ensures forall p :: GetContFromProc(p) == ContOf(seen, p.contId)
      ensures forall c :: GetPodFromCont(c) == PodOf(seen, c)
      ensures forall id :: tables.GetFile(id) == LatestFile(seen, id)
    {
      TableLookup(tables.procTable, seen, trim);
      assert forall id :: tables.GetCont(id) == Found(tables.contTable, id);
      assert forall id :: tables.GetPod(id) == Found(tables.podTable, id);
      assert forall id :: tables.GetFile(id) == Found(tables.fileTable, id);
    }

    /** Asks for the chain of `id` while `r` is handled; `log` is what came before. */
    method AskPtree(id: Oid, ghost r: Rec) returns (ptree: seq<Process>)
      requires tables.Valid() && SnapshotsOk(tables.snapshots, log, trim, entEnabled)
      requires !r.HeaderRec? && Asks(log, r, trim, entEnabled) == Some(id)
      requires Matches(log + [r]) && ChainEnds(log, r, trim, entEnabled)
      modifies tables`ptreeTable, tables`snapshots
      ensures tables.Valid() && SnapshotsOk(tables.snapshots, log + [r], trim, entEnabled)
      ensures ptree == TreeIn(log + [r], trim, entEnabled, id) && AskedEnds(log + [r], trim, entEnabled, id)
    {
      var now := log + [r];
      Lookups(now);
      ghost var before := tables.snapshots;
      assert SameLookup(ProcIn(now, trim), InTable(tables.procTable));
      SameAncestors(ProcIn(now, trim), InTable(tables.procTable), id);
      ptree := tables.GetPtree(id);
      SnapshotsNext(before, tables.procTable, tables.snapshots, log, r, trim, entEnabled);
      FirstAskedNext(log, r, trim, entEnabled, id);
      assert SnapshotOk(tables.snapshots, now, trim, entEnabled, id);
      var k := FirstAsked(now, trim, entEnabled, id).value;
      SameAncestors(InTable(tables.snapshots[id]), ProcIn(now[..k], trim), id);
    }

    /** `getPodContAndProc` for an event on `oid`, put into its context. */
    method EventContext(r: Rec, oid: Oid) returns (c: Ctx)
      requires Valid() && EventOid(r) == Some(oid) && ChainEnds(log, r, trim, entEnabled)
      modifies tables`ptreeTable, tables`snapshots
      ensures tables.Valid() && SnapshotsOk(tables.snapshots, log + [r], trim, entEnabled)
      ensures c == EventCtx(log, r, oid, trim, entEnabled)
      ensures c.rec == r && RightHeader(log, c.header) && RightProcess(log, r, oid, trim, entEnabled, c)
    {
      HeaderIsRight(log);
      Lookups(log);
      ScansStay(log, r, trim);
      TableLookup(tables.procTable, log + [r], trim);
      var p := tables.GetProc(oid);
      if p.Some? {
        var ptree := AskPtree(oid, r);
        Lookups(log);
        var cont := GetContFromProc(p.value);
        c := Ctx(r, hdr, GetPodFromCont(cont), cont, p, Some(ptree), None, None);
      } else {
        SnapshotsNext(tables.snapshots, tables.procTable, tables.snapshots, log, r, trim, entEnabled);
        c := Bare(r, hdr);
      }
      ProcessIsRight(log, r, oid, trim, entEnabled);
    }

    /** A record is handled once the tables match the longer log and what it was to deliver is delivered. */
    ghost method Handled(r: Rec, out: seq<Ctx>)
      requires tables.Valid() && hdr == LastHeader(log + [r]) && Matches(log + [r])
      requires SnapshotsOk(tables.snapshots, log + [r], trim, entEnabled)
      requires delivered == AllExpected(log, trim, entEnabled) + out && out == Expected(log, r, trim, entEnabled)
      modifies this`log
      ensures Valid() && log == old(log) + [r]
    {
      assert Init(log + [r]) == log && Reader.Last(log + [r]) == r;
      log := log + [r];
    }

    method Header(r: Rec)
      requires Valid() && r.HeaderRec?
      modifies this, tables
      ensures Valid() && log == old(log) + [r]
    {
      var c := Bare(r, hdr);
      hdr := Some(r.hdr);
      tables.Reset();
      HeaderForgets(log, r.hdr, trim, entEnabled);
      if entEnabled {
        delivered := delivered + [c];
      }
      Handled(r, if entEnabled then [c] else []);
    }

    method DeliverIf(really: bool, c: Ctx) returns (out: seq<Ctx>)
      modifies this`delivered
      ensures out == (if really then [c] else []) && delivered == old(delivered) + out
    {
      out := if really then [c] else [];
      delivered := delivered + out;
    }

    /** The memo and the header while only a table changes. */
    ghost predicate Kept(r: Rec)
      reads this, tables
    {
      tables.Valid() && hdr == LastHeader(log + [r]) && Matches(log + [r])
      && SnapshotsOk(tables.snapshots, log + [r], trim, entEnabled)
    }

    /** Of a record that asks for no chain, only the tables matter. */
    lemma KeptIfStored(r: Rec, before: map<Oid, map<Oid, Slots>>)
      requires tables.Valid() && hdr == LastHeader(log) && Matches(log + [r]) && tables.snapshots == before
      requires SnapshotsOk(before, log, trim, entEnabled)
      requires !r.HeaderRec? && Asks(log, r, trim, entEnabled) == None
      ensures Kept(r)
    {
      ScansStay(log, r, trim);
      TableLookup(tables.procTable, log + [r], trim);
      SnapshotsNext(before, tables.procTable, before, log, r, trim, entEnabled);
    }

    method StoreContainer(r: Rec)
      requires Valid() && r.ContRec?
      modifies this, tables
      ensures Valid() && log == old(log) + [r]
    {
      ContStored(Stored(), log, r.cont, trim);
      tables.SetCont(r.cont.id, r.cont);
      KeptIfStored(r, tables.snapshots);
      var out := DeliverIf(entEnabled, Bare(r, hdr));
      Handled(r, out);
    }

    method StorePod(r: Rec)
      requires Valid() && r.PodRec?
      modifies this, tables
      ensures Valid() && log == old(log) + [r]
    {
      PodStored(Stored(), log, r.pod, trim);
      tables.SetPod(r.pod.id, r.pod);
      KeptIfStored(r, tables.snapshots);
      var out := DeliverIf(entEnabled, Bare(r, hdr));
      Handled(r, out);
    }

    /** Kubernetes events, and records that are passed over. */
    method Plain(r: Rec)
      requires Valid() && (r.K8sRec? || r.OtherRec?)
      modifies this, tables
      ensures Valid() && log == old(log) + [r]
    {
      NothingStored(Stored(), log, r, trim);
      KeptIfStored(r, tables.snapshots);
      var out := DeliverIf(r.K8sRec?, Bare(r, hdr));
      Handled(r, out);
    }

    method StoreProcess(r: Rec)
      requires Valid() && r.ProcRec? && ChainEnds(log, r, trim, entEnabled)
      modifies this, tables
      ensures Valid() && log == old(log) + [r]
    {
      var p := Trimmed(r.proc, trim);
      ghost var before := Stored();
      tables.SetProc(p.oid, p);
      ProcStored(before, tables.procTable, log, r.proc, trim);
      ScansStay(log, r, trim);
      if entEnabled {
        var ptree := AskPtree(p.oid, r);
        Lookups(log + [r]);
        var cont := GetContFromProc(p);
        var out := DeliverIf(true, Ctx(ProcRec(p), hdr, GetPodFromCont(cont), cont, Some(p), Some(ptree), None, None));
        Handled(r, out);
      } else {
        KeptIfStored(r, tables.snapshots);
        Handled(r, []);
      }
    }

    /** The context of a file that was just stored. */
    method FileContext(r: Rec) returns (c: Ctx)
      requires r.FileRec? && Matches(log + [r]) && hdr == LastHeader(log)
      ensures var cont := ContOf(log + [r], r.file.contId);
              c == Ctx(r, LastHeader(log), PodOf(log + [r], cont), cont, None, None, Some(r.file), None)
    {
      Lookups(log + [r]);
      var cont := if r.file.contId.Some? then tables.GetCont(r.file.contId.value) else None;
      c := Ctx(r, hdr, GetPodFromCont(cont), cont, None, None, Some(r.file), None);
    }

    method StoreFile(r: Rec)
      requires Valid() && r.FileRec?
      modifies this, tables
      ensures Valid() && log == old(log) + [r]
    {
      FileStored(Stored(), log, r.file, trim);
      tables.SetFile(r.file.oid, r.file);
      KeptIfStored(r, tables.snapshots);
      var c := FileContext(r);
      var out := DeliverIf(entEnabled, c);
      Handled(r, out);
    }

    /** The files that a file flow or a file event names. */
    method WithFiles(r: Rec, c: Ctx) returns (d: Ctx)
      requires Matches(log)
      ensures d == match r
                   case FileFlow(_, foid) => c.(file := LatestFile(log, foid))
                   case FileEvt(_, foid, newFoid) => c.(file := LatestFile(log, foid), newFile := OptFile(log, newFoid))
                   case _ => c
    {
      Lookups(log);
      d := c;
      if r.FileFlow? {
        d := c.(file := tables.GetFile(r.foid));
      } else if r.FileEvt? {
        d := c.(file := tables.GetFile(r.foid), newFile := if r.newFoid.Some? then tables.GetFile(r.newFoid.value) else None);
      }
    }

    method Event(r: Rec, oid: Oid)
      requires Valid() && EventOid(r) == Some(oid) && ChainEnds(log, r, trim, entEnabled)
      modifies this, tables
      ensures Valid() && log == old(log) + [r]
    {
      NothingStored(Stored(), log, r, trim);
      ScansStay(log, r, trim);
      var c := EventContext(r, oid);
      var d := WithFiles(r, c);
      var out := DeliverIf(true, d);
      Handled(r, out);
    }

    /** The switch over record types. */
    method Handle(r: Rec)
      requires Valid() && ChainEnds(log, r, trim, entEnabled)
      modifies this, tables
      ensures Valid() && log == old(log) + [r]
    {
      match r
      case HeaderRec(_) => Header(r);
      case ContRec(_) => StoreContainer(r);
      case PodRec(_) => StorePod(r);
      case ProcRec(_) => StoreProcess(r);
      case FileRec(_) => StoreFile(r);
      case ProcEvt(oid) => Event(r, oid);
      case NetFlow(oid) => Event(r, oid);
      case FileFlow(oid, _) => Event(r, oid);
      case FileEvt(oid, _, _) => Event(r, oid);
      case _ => Plain(r);
    }

    /**
     `Process`: after any part of the log, exactly what the scans find has been delivered,
     and that is right by the positions of the records in the log.
     */
    method Process(records: seq<Rec>)
      requires Valid() && ChainsEnd(log + records, trim, entEnabled)
      modifies this, tables
      ensures Valid() && log == old(log) + records
      ensures delivered == AllExpected(old(log) + records, trim, entEnabled)
      ensures RightDelivery(old(log) + records, trim, entEnabled, delivered)
    {
      ghost var log0 := log;
      assert log0 + records[..0] == log0;
      for k := 0 to |records|
        invariant Valid() && log == log0 + records[..k]
      {
        NextChainEnds(log0, records, k, trim, entEnabled);
        Handle(records[k]);
      }
      assert records[..|records|] == records && log[..|log|] == log;
      DeliveryIsRight(log, trim, entEnabled, |log|);
    }
  }

  lemma NextChainEnds(log: seq<Rec>, records: seq<Rec>, k: nat, trim: string -> string, ent: bool)
    requires ChainsEnd(log + records, trim, ent) && k < |records|
    ensures ChainEnds(log + records[..k], records[k], trim, ent)
    ensures log + records[..k + 1] == log + records[..k] + [records[k]]
  {
    var all, n := log + records, |log| + k;
    assert ChainEnds(all[..n], all[n], trim, ent);
    assert all[..n] == log + records[..k] && all[n] == records[k];
  }
}
