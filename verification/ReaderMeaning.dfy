/**
 What the reader attaches to a record, said of positions in the log: which record of
 the log each entity comes from, and which ancestors a process is delivered with.
 */
module ReaderMeaning {
  import opened Text
  import opened EntityCache
  import opened Reader

  // ------------------------------------------------------------------
  // The records that stand.

  /** `new` takes the place of the entity that `old` brought. */
  predicate Replaces(newer: Rec, older: Rec)
  {
    match older
    case ContRec(c) => newer.ContRec? && newer.cont.id == c.id
    case PodRec(p) => newer.PodRec? && newer.pod.id == p.id
    case FileRec(f) => newer.FileRec? && newer.file.oid == f.oid
    case ProcRec(p) => newer.ProcRec? && newer.proc.oid == p.oid && newer.proc.state == p.state
    case _ => false
  }

  predicate StandsAt(log: seq<Rec>, r: Rec, i: nat)
  {
    i < |log| && log[i] == r && forall j :: i < j < |log| ==> !log[j].HeaderRec? && !Replaces(log[j], r)
  }

  /** Since the last header, `r` is the last record of its entity. */
  ghost predicate Stands(log: seq<Rec>, r: Rec)
  {
    exists i: nat :: StandsAt(log, r, i)
  }

  /** `p` is `raw` with executable and arguments trimmed, each by itself. */
  predicate IsTrimmed(raw: Process, p: Process, trim: string -> string)
  {
    p.exe == trim(raw.exe) && p.exeArgs == trim(raw.exeArgs)
    && p.oid == raw.oid && p.state == raw.state && p.poid == raw.poid && p.contId == raw.contId
  }

  ghost predicate StandsTrimmed(log: seq<Rec>, trim: string -> string, p: Process)
  {
    exists raw :: Stands(log, ProcRec(raw)) && IsTrimmed(raw, p, trim)
  }

  /** An object repeated at start-up gives way to a created one, and both to a modified one. */
  predicate GivesWay(s: ObjectState, t: ObjectState)
  {
    (s.REUP? && t.CREATED?) || (!s.MODIFIED? && t.MODIFIED?)
  }

  /** `p` is the process object of `id`: all others that stand give way to it. */
  ghost predicate Current(log: seq<Rec>, trim: string -> string, id: Oid, p: Process)
  {
    p.oid == id && StandsTrimmed(log, trim, p)
    && forall q :: StandsTrimmed(log, trim, q) && q.oid == id ==> q == p || GivesWay(q.state, p.state)
  }

  ghost predicate Unknown(log: seq<Rec>, trim: string -> string, id: Oid)
  {
    forall p :: !Current(log, trim, id, p)
  }

  /** `ps` are the process of `id`, its parent, and so on, up to the last that is known. */
  ghost predicate IsLine(log: seq<Rec>, trim: string -> string, id: Oid, ps: seq<Process>)
  {
    if ps == [] then Unknown(log, trim, id)
    else
      Current(log, trim, id, ps[0])
      && (forall i :: 0 <= i < |ps| - 1 ==> ps[i].poid.Some? && Current(log, trim, ps[i].poid.value, ps[i + 1]))
      && (ps[|ps| - 1].poid.Some? ==> Unknown(log, trim, ps[|ps| - 1].poid.value))
  }

  // ------------------------------------------------------------------
  // When a chain is asked for.

  predicate IsEventOn(r: Rec, id: Oid)
  {
    (r.ProcEvt? || r.NetFlow? || r.FileFlow? || r.FileEvt?) && r.oid == id
  }

  /** The record at `i` is an event on a process that was known by then, or the process itself when entities are wanted. */
  ghost predicate AsksAt(log: seq<Rec>, trim: string -> string, ent: bool, id: Oid, i: nat)
  {
    i < |log| && NoHeaderFrom(log, i)
    && ((IsEventOn(log[i], id) && !Unknown(log[..i], trim, id)) || (ent && log[i].ProcRec? && log[i].proc.oid == id))
  }

  ghost predicate FirstAsksAt(log: seq<Rec>, trim: string -> string, ent: bool, id: Oid, i: nat)
  {
    AsksAt(log, trim, ent, id, i) && forall j: nat :: j < i ==> !AsksAt(log, trim, ent, id, j)
  }

  /** The chain is the one that was there when it was first asked for since the last header. */
  ghost predicate RightTree(log: seq<Rec>, trim: string -> string, ent: bool, id: Oid, ps: seq<Process>)
  {
    exists i: nat :: FirstAsksAt(log, trim, ent, id, i) && IsLine(log[..i + 1], trim, id, ps)
  }

  // ------------------------------------------------------------------
  // What is right to deliver.

  predicate LastHeaderAt(log: seq<Rec>, h: Header, i: nat)
  {
    i < |log| && log[i] == HeaderRec(h) && NoHeaderFrom(log, i + 1)
  }

  /** The header is the last one of the log; there is none only if the log has none. */
  ghost predicate RightHeader(log: seq<Rec>, header: Option<Header>)
  {
    match header
    case Some(h) => exists i: nat :: LastHeaderAt(log, h, i)
    case None => NoHeaderFrom(log, 0)
  }

  /** The container is that of `contId`, the pod is that of the container: as they stand. */
  ghost predicate RightPlace(log: seq<Rec>, contId: Option<string>, c: Ctx)
  {
    (forall k :: c.cont == Some(k) <==> contId == Some(k.id) && Stands(log, ContRec(k)))
    && (forall d :: c.pod == Some(d) <==> c.cont.Some? && c.cont.value.podId == Some(d.id) && Stands(log, PodRec(d)))
  }

  ghost predicate RightFile(log: seq<Rec>, foid: Option<string>, file: Option<File>)
  {
    forall f :: file == Some(f) <==> foid == Some(f.oid) && Stands(log, FileRec(f))
  }

  /** The process of an event, where it runs and its ancestors; of an unknown process nothing is attached. */
  ghost predicate RightProcess(log: seq<Rec>, r: Rec, oid: Oid, trim: string -> string, ent: bool, c: Ctx)
  {
    (forall p :: c.proc == Some(p) <==> Current(log, trim, oid, p))
    && RightPlace(log, if c.proc.Some? then c.proc.value.contId else None, c)
    && (c.ptree.Some? <==> c.proc.Some?)
    && (c.ptree.Some? ==> RightTree(log + [r], trim, ent, oid, c.ptree.value))
  }

  ghost predicate RightEvent(log: seq<Rec>, r: Rec, trim: string -> string, ent: bool, c: Ctx)
    requires EventOid(r).Some?
  {
    c.rec == r && RightHeader(log, c.header)
    && RightProcess(log, r, r.oid, trim, ent, c)
    && RightFile(log, if r.FileFlow? || r.FileEvt? then Some(r.foid) else None, c.file)
    && RightFile(log, if r.FileEvt? then r.newFoid else None, c.newFile)
  }

  /** A process record is delivered trimmed, as it now stands. */
  ghost predicate RightProcRec(log: seq<Rec>, r: Rec, trim: string -> string, ent: bool, c: Ctx)
    requires r.ProcRec?
  {
    RightHeader(log, c.header) && c.file.None? && c.newFile.None?
    && c.proc.Some? && IsTrimmed(r.proc, c.proc.value, trim) && c.rec == ProcRec(c.proc.value)
    && RightPlace(log + [r], r.proc.contId, c)
    && c.ptree.Some? && RightTree(log + [r], trim, ent, r.proc.oid, c.ptree.value)
  }

  ghost predicate RightFileRec(log: seq<Rec>, r: Rec, c: Ctx)
    requires r.FileRec?
  {
    c.rec == r && RightHeader(log, c.header) && RightPlace(log + [r], r.file.contId, c)
    && c.file == Some(r.file) && c.newFile.None? && c.proc.None? && c.ptree.None?
  }

  predicate NothingAttached(c: Ctx)
  {
    c.pod.None? && c.cont.None? && c.proc.None? && c.ptree.None? && c.file.None? && c.newFile.None?
  }

  ghost predicate RightCtx(log: seq<Rec>, r: Rec, trim: string -> string, ent: bool, c: Ctx)
  {
    if r.ProcRec? then RightProcRec(log, r, trim, ent, c)
    else if r.FileRec? then RightFileRec(log, r, c)
    else if r.ProcEvt? || r.NetFlow? || r.FileFlow? || r.FileEvt? then RightEvent(log, r, trim, ent, c)
    else c.rec == r && RightHeader(log, c.header) && NothingAttached(c)
  }

  /** Events are always delivered, entities and headers when they are wanted. */
  predicate IsDelivered(r: Rec, ent: bool)
  {
    match r
    case OtherRec => false
    case K8sRec(_) => true
    case ProcEvt(_) => true
    case NetFlow(_) => true
    case FileFlow(_, _) => true
    case FileEvt(_, _, _) => true
    case _ => ent
  }

  /** One right context after the other, one for each record that is delivered. */
  ghost predicate RightDelivery(log: seq<Rec>, trim: string -> string, ent: bool, cs: seq<Ctx>)
  {
    if log == [] then cs == []
    else
      var n := |log| - 1;
      if IsDelivered(log[n], ent) then
        cs != [] && RightCtx(log[..n], log[n], trim, ent, cs[|cs| - 1]) && RightDelivery(log[..n], trim, ent, cs[..|cs| - 1])
      else RightDelivery(log[..n], trim, ent, cs)
  }

  // ------------------------------------------------------------------
  // The scans find what stands.

  lemma StandsNext(log: seq<Rec>, r: Rec)
    requires log != [] && !r.HeaderRec?
    ensures Stands(log, r) <==>
            Last(log) == r || (!Last(log).HeaderRec? && !Replaces(Last(log), r) && Stands(Reader.Init(log), r))
  {
    var n := |log| - 1;
    var before := Reader.Init(log);
    if log[n] == r {
      assert StandsAt(log, r, n);
    }
    if Stands(log, r) && log[n] != r {
      var i: nat :| StandsAt(log, r, i);
      assert StandsAt(before, r, i);
    }
    if Stands(before, r) && !log[n].HeaderRec? && !Replaces(log[n], r) {
      var i: nat :| StandsAt(before, r, i);
      assert forall j :: i <= j < n ==> log[j] == before[j];
      assert StandsAt(log, r, i);
    }
  }

  lemma NothingStands(r: Rec)
    ensures !Stands([], r)
  {
  }

  lemma {:induction false} ContStands(log: seq<Rec>, id: string, c: Container)
    ensures LatestCont(log, id) == Some(c) <==> c.id == id && Stands(log, ContRec(c))
  {
    if log != [] {
      ContStands(Reader.Init(log), id, c);
      StandsNext(log, ContRec(c));
    }
  }

  lemma {:induction false} PodStands(log: seq<Rec>, id: string, p: Pod)
    ensures LatestPod(log, id) == Some(p) <==> p.id == id && Stands(log, PodRec(p))
  {
    if log != [] {
      PodStands(Reader.Init(log), id, p);
      StandsNext(log, PodRec(p));
    }
  }

  lemma {:induction false} FileStands(log: seq<Rec>, id: string, f: File)
    ensures LatestFile(log, id) == Some(f) <==> f.oid == id && Stands(log, FileRec(f))
  {
    if log != [] {
      FileStands(Reader.Init(log), id, f);
      StandsNext(log, FileRec(f));
    }
  }

  lemma TrimmedNext(log: seq<Rec>, trim: string -> string, p: Process)
    requires log != []
    ensures StandsTrimmed(log, trim, p) <==>
            (Last(log).ProcRec? && IsTrimmed(Last(log).proc, p, trim))
            || (!Last(log).HeaderRec? && !Replaces(Last(log), ProcRec(p)) && StandsTrimmed(Reader.Init(log), trim, p))
  {
    var before := Reader.Init(log);
    if StandsTrimmed(log, trim, p) {
      var raw :| Stands(log, ProcRec(raw)) && IsTrimmed(raw, p, trim);
      StandsNext(log, ProcRec(raw));
    }
    if Last(log).ProcRec? && IsTrimmed(Last(log).proc, p, trim) {
      StandsNext(log, Last(log));
    }
    if StandsTrimmed(before, trim, p) {
      var raw :| Stands(before, ProcRec(raw)) && IsTrimmed(raw, p, trim);
      StandsNext(log, ProcRec(raw));
    }
  }

  lemma {:induction false} ProcStands(log: seq<Rec>, trim: string -> string, id: Oid, s: ObjectState, p: Process)
    ensures LatestProc(log, trim, id, s) == Some(p) <==> p.oid == id && p.state == s && StandsTrimmed(log, trim, p)
  {
    if log == [] {
    } else {
      ProcStands(Reader.Init(log), trim, id, s, p);
      TrimmedNext(log, trim, p);
    }
  }

  /** The lookup prefers the object to which the others give way. */
  lemma CurrentIs(log: seq<Rec>, trim: string -> string, id: Oid, p: Process)
    ensures ProcIn(log, trim)(id) == Some(p) <==> Current(log, trim, id, p)
  {
    forall q ensures StandsTrimmed(log, trim, q) && q.oid == id ==> LatestProc(log, trim, id, q.state) == Some(q) {
      ProcStands(log, trim, id, q.state, q);
    }
    forall s, q ensures LatestProc(log, trim, id, s) == Some(q) ==> q.oid == id && q.state == s && StandsTrimmed(log, trim, q) {
      ProcStands(log, trim, id, s, q);
    }
  }

  lemma UnknownIs(log: seq<Rec>, trim: string -> string, id: Oid)
    ensures ProcIn(log, trim)(id).None? <==> Unknown(log, trim, id)
  {
    var p := ProcIn(log, trim)(id);
    if p.Some? {
      CurrentIs(log, trim, id, p.value);
    } else {
      forall q ensures !Current(log, trim, id, q) {
        CurrentIs(log, trim, id, q);
      }
    }
  }

  lemma {:induction false} ChainIsLine(log: seq<Rec>, trim: string -> string, id: Oid, n: nat)
    requires Ends(ProcIn(log, trim), id, n)
    ensures IsLine(log, trim, id, Chain(ProcIn(log, trim), id, n))
    decreases n
  {
    var get := ProcIn(log, trim);
    UnknownIs(log, trim, id);
    if get(id).Some? {
      var p := get(id).value;
      CurrentIs(log, trim, id, p);
      if p.poid.Some? {
        ChainIsLine(log, trim, p.poid.value, n - 1);
        UnknownIs(log, trim, p.poid.value);
        var ps, rest := Chain(get, id, n), Chain(get, p.poid.value, n - 1);
        assert ps == [p] + rest;
        forall i | 0 <= i < |ps| - 1 ensures ps[i].poid.Some? && Current(log, trim, ps[i].poid.value, ps[i + 1]) {
          if i > 0 {
            assert ps[i] == rest[i - 1] && ps[i + 1] == rest[i - 1 + 1];
          }
        }
      }
    }
  }

  // ------------------------------------------------------------------
  // The memoised chain.

  lemma AsksMeans(log: seq<Rec>, r: Rec, trim: string -> string, ent: bool, id: Oid)
    requires !r.HeaderRec?
    ensures Asks(log, r, trim, ent) == Some(id) <==> AsksAt(log + [r], trim, ent, id, |log|)
  {
    assert (log + [r])[..|log|] == log;
    UnknownIs(log, trim, id);
  }

  lemma AsksAtGrows(log: seq<Rec>, r: Rec, trim: string -> string, ent: bool, id: Oid, i: nat)
    requires !r.HeaderRec? && i < |log|
    ensures AsksAt(log + [r], trim, ent, id, i) <==> AsksAt(log, trim, ent, id, i)
  {
    assert (log + [r])[..i] == log[..i];
    if NoHeaderFrom(log, i) {
      SinceGrowsBy(log, r, i);
    }
    if NoHeaderFrom(log + [r], i) {
      forall j | i <= j < |log| ensures !log[j].HeaderRec? {
        assert (log + [r])[j] == log[j];
      }
    }
  }

  lemma SinceGrowsBy(log: seq<Rec>, r: Rec, i: nat)
    requires !r.HeaderRec? && NoHeaderFrom(log, i)
    ensures NoHeaderFrom(log + [r], i)
  {
    assert Reader.Init(log + [r]) == log;
    SinceGrows(log + [r], i);
  }

  lemma {:induction false} FirstAskedMeans(log: seq<Rec>, trim: string -> string, ent: bool, id: Oid)
    ensures match FirstAsked(log, trim, ent, id)
            case Some(k) => FirstAsksAt(log, trim, ent, id, k - 1)
            case None => forall i: nat :: !AsksAt(log, trim, ent, id, i)
  {
    if log == [] {
    } else if Last(log).HeaderRec? {
      forall i: nat ensures !AsksAt(log, trim, ent, id, i) {
        if i < |log| {
          assert log[|log| - 1].HeaderRec?;
        }
      }
    } else {
      var before, r := Reader.Init(log), Last(log);
      assert log == before + [r];
      FirstAskedMeans(before, trim, ent, id);
      AsksMeans(before, r, trim, ent, id);
      forall i: nat | i < |before| ensures AsksAt(log, trim, ent, id, i) <==> AsksAt(before, trim, ent, id, i) {
        AsksAtGrows(before, r, trim, ent, id, i);
      }
    }
  }

  /** The chain of `id` had an end when it was first asked for. */
  ghost predicate AskedEnds(log: seq<Rec>, trim: string -> string, ent: bool, id: Oid)
  {
    var k := FirstAsked(log, trim, ent, id);
    k.Some? ==> Terminates(ProcIn(log[..k.value], trim), id)
  }

  /** The chain that is asked for while `r` is handled had an end when it was first asked for. */
  ghost predicate AskEnds(log: seq<Rec>, r: Rec, trim: string -> string, ent: bool)
  {
    match Asks(log, r, trim, ent)
    case None => true
    case Some(id) => AskedEnds(log + [r], trim, ent, id)
  }

  lemma TreeIsRight(log: seq<Rec>, trim: string -> string, ent: bool, id: Oid)
    requires FirstAsked(log, trim, ent, id).Some? && AskedEnds(log, trim, ent, id)
    ensures RightTree(log, trim, ent, id, TreeIn(log, trim, ent, id))
  {
    var k := FirstAsked(log, trim, ent, id).value;
    FirstAskedMeans(log, trim, ent, id);
    var get := ProcIn(log[..k], trim);
    var n: nat :| Ends(get, id, n);
    AncestorsAre(get, id, n);
    ChainIsLine(log[..k], trim, id, n);
    assert log[..k - 1 + 1] == log[..k];
  }

  lemma AskedNow(log: seq<Rec>, r: Rec, trim: string -> string, ent: bool, id: Oid)
    requires !r.HeaderRec? && Asks(log, r, trim, ent) == Some(id)
    ensures FirstAsked(log + [r], trim, ent, id).Some?
  {
    assert Reader.Init(log + [r]) == log;
  }

  // ------------------------------------------------------------------
  // What the scans expect is right.

  lemma {:induction false} HeaderIsRight(log: seq<Rec>)
    ensures RightHeader(log, LastHeader(log))
  {
    if log != [] {
      var n := |log| - 1;
      if log[n].HeaderRec? {
        assert LastHeaderAt(log, log[n].hdr, n);
      } else {
        HeaderIsRight(Reader.Init(log));
        if LastHeader(log).Some? {
          var h := LastHeader(log).value;
          var i: nat :| LastHeaderAt(Reader.Init(log), h, i);
          SinceGrows(log, i + 1);
          assert LastHeaderAt(log, h, i);
        } else {
          SinceGrows(log, 0);
        }
      }
    }
  }

  lemma PlaceIsRight(log: seq<Rec>, contId: Option<string>, c: Ctx)
    requires c.cont == ContOf(log, contId) && c.pod == PodOf(log, c.cont)
    ensures RightPlace(log, contId, c)
  {
    forall k ensures c.cont == Some(k) <==> contId == Some(k.id) && Stands(log, ContRec(k)) {
      ContStands(log, k.id, k);
      if contId.Some? {
        ContStands(log, contId.value, k);
      }
    }
    forall d ensures c.pod == Some(d) <==> c.cont.Some? && c.cont.value.podId == Some(d.id) && Stands(log, PodRec(d)) {
      PodStands(log, d.id, d);
      if c.cont.Some? && c.cont.value.podId.Some? {
        PodStands(log, c.cont.value.podId.value, d);
      }
    }
  }

  lemma FileIsRight(log: seq<Rec>, foid: Option<string>, file: Option<File>)
    requires file == OptFile(log, foid)
    ensures RightFile(log, foid, file)
  {
    forall f ensures file == Some(f) <==> foid == Some(f.oid) && Stands(log, FileRec(f)) {
      FileStands(log, f.oid, f);
      if foid.Some? {
        FileStands(log, foid.value, f);
      }
    }
  }

  /** The context of an event before its files are looked up. */
  lemma ProcessIsRight(log: seq<Rec>, r: Rec, oid: Oid, trim: string -> string, ent: bool)
    requires EventOid(r) == Some(oid) && AskEnds(log, r, trim, ent)
    ensures RightProcess(log, r, oid, trim, ent, EventCtx(log, r, oid, trim, ent))
  {
    var c := EventCtx(log, r, oid, trim, ent);
    forall p ensures c.proc == Some(p) <==> Current(log, trim, oid, p) {
      CurrentIs(log, trim, oid, p);
    }
    PlaceIsRight(log, if c.proc.Some? then c.proc.value.contId else None, c);
    if c.proc.Some? {
      AskedNow(log, r, trim, ent, oid);
      TreeIsRight(log + [r], trim, ent, oid);
    }
  }

  lemma SameProcess(log: seq<Rec>, r: Rec, oid: Oid, trim: string -> string, ent: bool, c: Ctx, d: Ctx)
    requires RightProcess(log, r, oid, trim, ent, c)
    requires d.proc == c.proc && d.cont == c.cont && d.pod == c.pod && d.ptree == c.ptree
    ensures RightProcess(log, r, oid, trim, ent, d)
  {
  }

  lemma EventIsRight(log: seq<Rec>, r: Rec, trim: string -> string, ent: bool, c: Ctx)
    requires EventOid(r).Some? && Expected(log, r, trim, ent) == [c] && AskEnds(log, r, trim, ent)
    ensures RightEvent(log, r, trim, ent, c)
  {
    ProcessIsRight(log, r, r.oid, trim, ent);
    SameProcess(log, r, r.oid, trim, ent, EventCtx(log, r, r.oid, trim, ent), c);
    HeaderIsRight(log);
    FileIsRight(log, if r.FileFlow? || r.FileEvt? then Some(r.foid) else None, c.file);
    FileIsRight(log, if r.FileEvt? then r.newFoid else None, c.newFile);
  }

  lemma ProcRecIsRight(log: seq<Rec>, r: Rec, trim: string -> string, c: Ctx)
    requires r.ProcRec? && Expected(log, r, trim, true) == [c] && AskEnds(log, r, trim, true)
    ensures RightProcRec(log, r, trim, true, c)
  {
    HeaderIsRight(log);
    PlaceIsRight(log + [r], r.proc.contId, c);
    AskedNow(log, r, trim, true, r.proc.oid);
    TreeIsRight(log + [r], trim, true, r.proc.oid);
  }

  lemma ExpectedIsRight(log: seq<Rec>, r: Rec, trim: string -> string, ent: bool)
    requires AskEnds(log, r, trim, ent)
    ensures var cs := Expected(log, r, trim, ent);
            if IsDelivered(r, ent) then |cs| == 1 && RightCtx(log, r, trim, ent, cs[0]) else cs == []
  {
    var cs := Expected(log, r, trim, ent);
    if IsDelivered(r, ent) {
      HeaderIsRight(log);
      if r.ProcRec? {
        ProcRecIsRight(log, r, trim, cs[0]);
      } else if r.FileRec? {
        PlaceIsRight(log + [r], r.file.contId, cs[0]);
      } else if EventOid(r).Some? {
        EventIsRight(log, r, trim, ent, cs[0]);
      }
    }
  }

  /** Where all chains asked for end, the one memoised for `r` did. */
  lemma ChainsEndAsked(log: seq<Rec>, k: nat, trim: string -> string, ent: bool)
    requires ChainsEnd(log, trim, ent) && k < |log|
    ensures AskEnds(log[..k], log[k], trim, ent)
  {
    var now := log[..k] + [log[k]];
    assert now == log[..k + 1];
    forall id ensures AskedEnds(now, trim, ent, id) {
      FirstAskedMeans(now, trim, ent, id);
      var at := FirstAsked(now, trim, ent, id);
      if at.Some? {
        FirstAsksAtEnds(log, k, at.value - 1, trim, ent, id);
      }
    }
  }

  lemma FirstAsksAtEnds(log: seq<Rec>, k: nat, i: nat, trim: string -> string, ent: bool, id: Oid)
    requires ChainsEnd(log, trim, ent) && i <= k < |log| && AsksAt(log[..k + 1], trim, ent, id, i)
    ensures Terminates(ProcIn(log[..k + 1][..i + 1], trim), id)
  {
    var now := log[..k + 1];
    assert ChainEnds(log[..i], log[i], trim, ent);
    assert now[..i] == log[..i] && now[i] == log[i] && log[..i] + [log[i]] == now[..i + 1];
    UnknownIs(log[..i], trim, id);
    assert Asks(log[..i], log[i], trim, ent) == Some(id);
  }

  /** The whole delivery is right. */
  lemma {:induction false} DeliveryIsRight(log: seq<Rec>, trim: string -> string, ent: bool, k: nat)
    requires ChainsEnd(log, trim, ent) && k <= |log|
    ensures RightDelivery(log[..k], trim, ent, AllExpected(log[..k], trim, ent))
  {
    if k > 0 {
      var now := log[..k];
      assert now[..k - 1] == log[..k - 1] && Reader.Init(now) == log[..k - 1];
      DeliveryIsRight(log, trim, ent, k - 1);
      ChainsEndAsked(log, k - 1, trim, ent);
      ExpectedIsRight(log[..k - 1], log[k - 1], trim, ent);
      var cs := AllExpected(now, trim, ent);
      if IsDelivered(log[k - 1], ent) {
        assert cs[..|cs| - 1] == AllExpected(log[..k - 1], trim, ent);
      } else {
        assert cs == AllExpected(log[..k - 1], trim, ent);
      }
    }
  }
}
