/**
 The reader: what it attaches to each event is what a scan of the log, back to the
 last header, would find.
 */
module Reader {
  import opened Text
  import opened EntityCache

  datatype Header = Header(version: int, exporter: string, filename: string)

  datatype Rec =
    | HeaderRec(hdr: Header)
    | ContRec(cont: Container)
    | PodRec(pod: Pod)
    | K8sRec(message: string)
    | ProcRec(proc: Process)
    | FileRec(file: File)
    | ProcEvt(oid: Oid)
    | NetFlow(oid: Oid)
    | FileFlow(oid: Oid, foid: string)
    | FileEvt(oid: Oid, foid: string, newFoid: Option<string>)
    | OtherRec

  /** What the handler is given. */
  datatype Ctx = Ctx(
    rec: Rec,
    header: Option<Header>,
    pod: Option<Pod>,
    cont: Option<Container>,
    proc: Option<Process>,
    ptree: Option<seq<Process>>,
    file: Option<File>,
    newFile: Option<File>)

  /** `trim` stands for the trimming of Unicode white space. */
  function Trimmed(p: Process, trim: string -> string): Process
  {
    p.(exe := trim(p.exe), exeArgs := trim(p.exeArgs))
  }

  // ------------------------------------------------------------------
  // Scanning the log.

  function Last(log: seq<Rec>): Rec
    requires log != []
  {
    log[|log| - 1]
  }

  function Init(log: seq<Rec>): seq<Rec>
    requires log != []
  {
    log[..|log| - 1]
  }

  function LastHeader(log: seq<Rec>): Option<Header>
  {
    if log == [] then None else if Last(log).HeaderRec? then Some(Last(log).hdr) else LastHeader(Init(log))
  }

  function LatestProc(log: seq<Rec>, trim: string -> string, id: Oid, s: ObjectState): (found: Option<Process>)
    ensures found.Some? ==> found.value.oid == id && found.value.state == s
  {
    if log == [] || Last(log).HeaderRec? then None
    else if Last(log).ProcRec? && Last(log).proc.oid == id && Last(log).proc.state == s then Some(Trimmed(Last(log).proc, trim))
    else LatestProc(Init(log), trim, id, s)
  }

  function LatestCont(log: seq<Rec>, id: string): (found: Option<Container>)
    ensures found.Some? ==> found.value.id == id
  {
    if log == [] || Last(log).HeaderRec? then None
    else if Last(log).ContRec? && Last(log).cont.id == id then Some(Last(log).cont)
    else LatestCont(Init(log), id)
  }

  function LatestPod(log: seq<Rec>, id: string): (found: Option<Pod>)
    ensures found.Some? ==> found.value.id == id
  {
    if log == [] || Last(log).HeaderRec? then None
    else if Last(log).PodRec? && Last(log).pod.id == id then Some(Last(log).pod)
    else LatestPod(Init(log), id)
  }

  function LatestFile(log: seq<Rec>, id: string): (found: Option<File>)
    ensures found.Some? ==> found.value.oid == id
  {
    if log == [] || Last(log).HeaderRec? then None
    else if Last(log).FileRec? && Last(log).file.oid == id then Some(Last(log).file)
    else LatestFile(Init(log), id)
  }

  /** A modified object is preferred to a created one, and that to one repeated at start-up. */
  function ProcIn(log: seq<Rec>, trim: string -> string): Lookup
  {
    id => Preferred(Slots(LatestProc(log, trim, id, REUP), LatestProc(log, trim, id, CREATED), LatestProc(log, trim, id, MODIFIED)))
  }

  function ContOf(log: seq<Rec>, id: Option<string>): Option<Container>
  {
    if id.Some? then LatestCont(log, id.value) else None
  }

  function PodOf(log: seq<Rec>, cont: Option<Container>): Option<Pod>
  {
    if cont.Some? && cont.value.podId.Some? then LatestPod(log, cont.value.podId.value) else None
  }

  // ------------------------------------------------------------------
  // Which ancestor chains are asked for, and when.

  function EventOid(r: Rec): Option<Oid>
  {
    match r
    case ProcEvt(oid) => Some(oid)
    case NetFlow(oid) => Some(oid)
    case FileFlow(oid, _) => Some(oid)
    case FileEvt(oid, _, _) => Some(oid)
    case _ => None
  }

  /** The chain asked for while `r` is handled after `log`. */
  function Asks(log: seq<Rec>, r: Rec, trim: string -> string, ent: bool): Option<Oid>
  {
    if r.ProcRec? then if ent then Some(r.proc.oid) else None
    else
      var oid := EventOid(r);
      if oid.Some? && ProcIn(log, trim)(oid.value).Some? then oid else None
  }

  /** How much of the log had been handled when `id` was first asked for since the last header. */
  function FirstAsked(log: seq<Rec>, trim: string -> string, ent: bool, id: Oid): (k: Option<nat>)
    ensures k.Some? ==> 0 < k.value <= |log|
  {
    if log == [] || Last(log).HeaderRec? then None
    else
      var k := FirstAsked(Init(log), trim, ent, id);
      if k.Some? then k
      else if Asks(Init(log), Last(log), trim, ent) == Some(id) then Some(|log|)
      else None
  }

  /** Every chain asked for has an end. */
  ghost predicate ChainEnds(log: seq<Rec>, r: Rec, trim: string -> string, ent: bool)
  {
    match Asks(log, r, trim, ent)
    case None => true
    case Some(id) => Terminates(ProcIn(log + [r], trim), id)
  }

  ghost predicate ChainsEnd(log: seq<Rec>, trim: string -> string, ent: bool)
  {
    forall k :: 0 <= k < |log| ==> ChainEnds(log[..k], log[k], trim, ent)
  }

  /** The chain as the log stood when it was first asked for. */
  ghost function TreeIn(log: seq<Rec>, trim: string -> string, ent: bool, id: Oid): seq<Process>
  {
    match FirstAsked(log, trim, ent, id)
    case None => []
    case Some(k) => if Terminates(ProcIn(log[..k], trim), id) then Ancestors(ProcIn(log[..k], trim), id) else []
  }

  // ------------------------------------------------------------------
  // What should be delivered.

  function Bare(r: Rec, header: Option<Header>): Ctx
  {
    Ctx(r, header, None, None, None, None, None, None)
  }

  /** An event on process `oid`: without the process nothing is attached. */
  ghost function EventCtx(log: seq<Rec>, r: Rec, oid: Oid, trim: string -> string, ent: bool): Ctx
  {
    match ProcIn(log, trim)(oid)
    case None => Bare(r, LastHeader(log))
    case Some(p) =>
      var cont := ContOf(log, p.contId);
      Ctx(r, LastHeader(log), PodOf(log, cont), cont, Some(p), Some(TreeIn(log + [r], trim, ent, oid)), None, None)
  }

  function OptFile(log: seq<Rec>, foid: Option<string>): Option<File>
  {
    if foid.Some? then LatestFile(log, foid.value) else None
  }

  /** A header event still carries the header before it. */
  ghost function Expected(log: seq<Rec>, r: Rec, trim: string -> string, ent: bool): seq<Ctx>
  {
    var now, header := log + [r], LastHeader(log);
    match r
    case HeaderRec(_) => if ent then [Bare(r, header)] else []
    case ContRec(_) => if ent then [Bare(r, header)] else []
    case PodRec(_) => if ent then [Bare(r, header)] else []
    case K8sRec(_) => [Bare(r, header)]
    case ProcRec(raw) =>
      if ent then
        var p := Trimmed(raw, trim);
        var cont := ContOf(now, p.contId);
        [Ctx(ProcRec(p), header, PodOf(now, cont), cont, Some(p), Some(TreeIn(now, trim, ent, p.oid)), None, None)]
      else []
    case FileRec(f) =>
      if ent then
        var cont := ContOf(now, f.contId);
        [Ctx(r, header, PodOf(now, cont), cont, None, None, Some(f), None)]
      else []
    case ProcEvt(oid) => [EventCtx(log, r, oid, trim, ent)]
    case NetFlow(oid) => [EventCtx(log, r, oid, trim, ent)]
    case FileFlow(oid, foid) => [EventCtx(log, r, oid, trim, ent).(file := LatestFile(log, foid))]
    case FileEvt(oid, foid, newFoid) =>
      [EventCtx(log, r, oid, trim, ent).(file := LatestFile(log, foid), newFile := OptFile(log, newFoid))]
    case OtherRec => []
  }

  ghost function AllExpected(log: seq<Rec>, trim: string -> string, ent: bool): seq<Ctx>
  {
    if log == [] then [] else AllExpected(Init(log), trim, ent) + Expected(Init(log), Last(log), trim, ent)
  }

  // ------------------------------------------------------------------
  // Nothing from before the last header.

  predicate NoHeaderFrom(log: seq<Rec>, i: nat)
  {
    forall j :: i <= j < |log| ==> !log[j].HeaderRec?
  }

  ghost predicate ProcSince(log: seq<Rec>, trim: string -> string, p: Process)
  {
    exists i :: 0 <= i < |log| && NoHeaderFrom(log, i) && log[i].ProcRec? && Trimmed(log[i].proc, trim) == p
  }

  ghost predicate RecSince(log: seq<Rec>, r: Rec)
  {
    exists i :: 0 <= i < |log| && NoHeaderFrom(log, i) && log[i] == r
  }

  lemma SinceGrows(log: seq<Rec>, i: nat)
    requires log != [] && !Last(log).HeaderRec? && NoHeaderFrom(Init(log), i)
    ensures NoHeaderFrom(log, i)
  {
    assert forall j :: 0 <= j < |log| - 1 ==> log[j] == Init(log)[j];
  }

  lemma {:induction false} LatestProcIsSince(log: seq<Rec>, trim: string -> string, id: Oid, s: ObjectState)
    ensures var p := LatestProc(log, trim, id, s); p.Some? ==> ProcSince(log, trim, p.value)
  {
    if log != [] && !Last(log).HeaderRec? {
      var p := LatestProc(log, trim, id, s);
      if Last(log).ProcRec? && Last(log).proc.oid == id && Last(log).proc.state == s {
        assert NoHeaderFrom(log, |log| - 1);
      } else if p.Some? {
        LatestProcIsSince(Init(log), trim, id, s);
        var i :| 0 <= i < |Init(log)| && NoHeaderFrom(Init(log), i) && Init(log)[i].ProcRec? && Trimmed(Init(log)[i].proc, trim) == p.value;
        SinceGrows(log, i);
        assert log[i] == Init(log)[i];
      }
    }
  }

  lemma ProcInIsSince(log: seq<Rec>, trim: string -> string, id: Oid)
    ensures var p := ProcIn(log, trim)(id); p.Some? ==> ProcSince(log, trim, p.value)
  {
    LatestProcIsSince(log, trim, id, REUP);
    LatestProcIsSince(log, trim, id, CREATED);
    LatestProcIsSince(log, trim, id, MODIFIED);
  }

  lemma {:induction false} ChainIsSince(log: seq<Rec>, trim: string -> string, id: Oid, n: nat)
    requires Ends(ProcIn(log, trim), id, n)
    ensures forall p :: p in Chain(ProcIn(log, trim), id, n) ==> ProcSince(log, trim, p)
    decreases n
  {
    ProcInIsSince(log, trim, id);
    if Parent(ProcIn(log, trim), id).Some? {
      ChainIsSince(log, trim, Parent(ProcIn(log, trim), id).value, n - 1);
    }
  }

  lemma {:induction false} NoHeaderSinceAsked(log: seq<Rec>, trim: string -> string, ent: bool, id: Oid)
    ensures var k := FirstAsked(log, trim, ent, id); k.Some? ==> NoHeaderFrom(log, k.value - 1)
  {
    if log != [] && !Last(log).HeaderRec? && FirstAsked(log, trim, ent, id).Some? {
      var k := FirstAsked(Init(log), trim, ent, id);
      if k.Some? {
        NoHeaderSinceAsked(Init(log), trim, ent, id);
        SinceGrows(log, k.value - 1);
      }
    }
  }

  /** Even an old chain holds no process from before the last header. */
  lemma TreeIsSince(log: seq<Rec>, trim: string -> string, ent: bool, id: Oid, p: Process)
    requires p in TreeIn(log, trim, ent, id)
    ensures ProcSince(log, trim, p)
  {
    var k := FirstAsked(log, trim, ent, id).value;
    var seen := log[..k];
    var n: nat :| Ends(ProcIn(seen, trim), id, n) && Ancestors(ProcIn(seen, trim), id) == Chain(ProcIn(seen, trim), id, n);
    ChainIsSince(seen, trim, id, n);
    NoHeaderSinceAsked(log, trim, ent, id);
    var i :| 0 <= i < |seen| && NoHeaderFrom(seen, i) && seen[i].ProcRec? && Trimmed(seen[i].proc, trim) == p;
    assert log[i] == seen[i];
    forall j | i <= j < |log| ensures !log[j].HeaderRec? {
      assert j < k ==> log[j] == seen[j];
    }
    assert NoHeaderFrom(log, i);
  }

  lemma {:induction false} LatestContIsSince(log: seq<Rec>, id: string)
    ensures var c := LatestCont(log, id); c.Some? ==> RecSince(log, ContRec(c.value))
  {
    if log != [] && !Last(log).HeaderRec? && LatestCont(log, id).Some? {
      var c := LatestCont(log, id).value;
      if Last(log).ContRec? && Last(log).cont.id == id {
        assert NoHeaderFrom(log, |log| - 1);
      } else {
        LatestContIsSince(Init(log), id);
        RecSinceGrows(log, ContRec(c));
      }
    }
  }

  lemma RecSinceGrows(log: seq<Rec>, r: Rec)
    requires log != [] && !Last(log).HeaderRec? && RecSince(Init(log), r)
    ensures RecSince(log, r)
  {
    var i :| 0 <= i < |Init(log)| && NoHeaderFrom(Init(log), i) && Init(log)[i] == r;
    SinceGrows(log, i);
    assert log[i] == Init(log)[i];
  }

  lemma {:induction false} LatestPodIsSince(log: seq<Rec>, id: string)
    ensures var c := LatestPod(log, id); c.Some? ==> RecSince(log, PodRec(c.value))
  {
    if log != [] && !Last(log).HeaderRec? && LatestPod(log, id).Some? {
      if Last(log).PodRec? && Last(log).pod.id == id {
        assert NoHeaderFrom(log, |log| - 1);
      } else {
        LatestPodIsSince(Init(log), id);
        RecSinceGrows(log, PodRec(LatestPod(log, id).value));
      }
    }
  }

  lemma {:induction false} LatestFileIsSince(log: seq<Rec>, id: string)
    ensures var c := LatestFile(log, id); c.Some? ==> RecSince(log, FileRec(c.value))
  {
    if log != [] && !Last(log).HeaderRec? && LatestFile(log, id).Some? {
      if Last(log).FileRec? && Last(log).file.oid == id {
        assert NoHeaderFrom(log, |log| - 1);
      } else {
        LatestFileIsSince(Init(log), id);
        RecSinceGrows(log, FileRec(LatestFile(log, id).value));
      }
    }
  }

  /** Every entity in `c` comes from a record of `log` after its last header. */
  ghost predicate AllSince(log: seq<Rec>, trim: string -> string, c: Ctx)
  {
    (c.pod.Some? ==> RecSince(log, PodRec(c.pod.value)))
    && (c.cont.Some? ==> RecSince(log, ContRec(c.cont.value)))
    && (c.proc.Some? ==> ProcSince(log, trim, c.proc.value))
    && (c.ptree.Some? ==> forall p :: p in c.ptree.value ==> ProcSince(log, trim, p))
    && (c.file.Some? ==> RecSince(log, FileRec(c.file.value)))
    && (c.newFile.Some? ==> RecSince(log, FileRec(c.newFile.value)))
  }

  lemma ProcSinceNext(log: seq<Rec>, r: Rec, trim: string -> string, p: Process)
    requires !r.HeaderRec? && ProcSince(log, trim, p)
    ensures ProcSince(log + [r], trim, p)
  {
    var i :| 0 <= i < |log| && NoHeaderFrom(log, i) && log[i].ProcRec? && Trimmed(log[i].proc, trim) == p;
    assert (log + [r])[i] == log[i] && NoHeaderFrom(log + [r], i);
  }

  lemma RecSinceNext(log: seq<Rec>, r: Rec, x: Rec)
    requires !r.HeaderRec? && RecSince(log, x)
    ensures RecSince(log + [r], x)
  {
    assert Init(log + [r]) == log;
    RecSinceGrows(log + [r], x);
  }

  lemma EventCtxIsSince(log: seq<Rec>, r: Rec, oid: Oid, trim: string -> string, ent: bool)
    requires !r.HeaderRec?
    ensures AllSince(log + [r], trim, EventCtx(log, r, oid, trim, ent))
  {
    var c := EventCtx(log, r, oid, trim, ent);
    if c.proc.Some? {
      ProcInIsSince(log, trim, oid);
      ProcSinceNext(log, r, trim, c.proc.value);
      forall p | p in c.ptree.value ensures ProcSince(log + [r], trim, p) {
        TreeIsSince(log + [r], trim, ent, oid, p);
      }
      if c.cont.Some? {
        LatestContIsSince(log, c.proc.value.contId.value);
        RecSinceNext(log, r, ContRec(c.cont.value));
      }
      if c.pod.Some? {
        LatestPodIsSince(log, c.cont.value.podId.value);
        RecSinceNext(log, r, PodRec(c.pod.value));
      }
    }
  }

  /** Container and pod found in a log come from it. */
  lemma PlaceIsSince(log: seq<Rec>, contId: Option<string>)
    ensures var cont := ContOf(log, contId);
            (cont.Some? ==> RecSince(log, ContRec(cont.value)))
            && (PodOf(log, cont).Some? ==> RecSince(log, PodRec(PodOf(log, cont).value)))
  {
    var cont := ContOf(log, contId);
    if contId.Some? {
      LatestContIsSince(log, contId.value);
    }
    if cont.Some? && cont.value.podId.Some? {
      LatestPodIsSince(log, cont.value.podId.value);
    }
  }

  lemma NewestIsSince(log: seq<Rec>, r: Rec)
    requires !r.HeaderRec?
    ensures RecSince(log + [r], r)
    ensures NoHeaderFrom(log + [r], |log|)
  {
    assert (log + [r])[|log|] == r;
  }

  lemma EntityIsSince(log: seq<Rec>, r: Rec, trim: string -> string, ent: bool, c: Ctx)
    requires c in Expected(log, r, trim, ent) && (r.ProcRec? || r.FileRec?)
    ensures AllSince(log + [r], trim, c)
  {
    var now := log + [r];
    NewestIsSince(log, r);
    if r.ProcRec? {
      var p := Trimmed(r.proc, trim);
      PlaceIsSince(now, p.contId);
      assert now[|log|] == r && ProcSince(now, trim, p);
      forall q | q in c.ptree.value ensures ProcSince(now, trim, q) {
        TreeIsSince(now, trim, ent, p.oid, q);
      }
    } else {
      PlaceIsSince(now, r.file.contId);
    }
  }

  lemma EventIsSince(log: seq<Rec>, r: Rec, trim: string -> string, ent: bool, c: Ctx)
    requires c in Expected(log, r, trim, ent) && EventOid(r).Some?
    ensures AllSince(log + [r], trim, c)
  {
    var oid := EventOid(r).value;
    EventCtxIsSince(log, r, oid, trim, ent);
    if c.file.Some? {
      LatestFileIsSince(log, r.foid);
      RecSinceNext(log, r, FileRec(c.file.value));
    }
    if c.newFile.Some? {
      LatestFileIsSince(log, r.newFoid.value);
      RecSinceNext(log, r, FileRec(c.newFile.value));
    }
  }

  /** Nothing that is delivered with a record other than a header is older than the last header. */
  lemma NothingOldIsDelivered(log: seq<Rec>, r: Rec, trim: string -> string, ent: bool, c: Ctx)
    requires c in Expected(log, r, trim, ent) && !r.HeaderRec?
    ensures AllSince(log + [r], trim, c) && c.header == LastHeader(log + [r])
  {
    assert Init(log + [r]) == log;
    if r.ProcRec? || r.FileRec? {
      EntityIsSince(log, r, trim, ent, c);
    } else if EventOid(r).Some? {
      EventIsSince(log, r, trim, ent, c);
    }
  }
}
