/**
 The JSON object of a record, member by member: which sections it has, which attributes
 each section holds, and which value of the record stands under which key.
 */
module TreeContents {
  import opened Text
  import opened Json
  import opened JsonPieces
  import opened FieldTable
  import opened JsonFields
  import opened JsonRecord
  import opened JsonTree
  import opened ExportedTable
  import opened FaithfulEncoder
  import C = PolicyCompiler
  import E = JsonEncoder

  // ------------------------------------------------------------------
  // Values of a record by the names of its fields.

  function Named(part: string, s: Section, name: string, kind: Kind): Field
  {
    Field(["sf", part, name], s, kind)
  }

  function Number(n: int): Json
  {
    JNumber(FormatInt(n))
  }

  function Str(r: Rec, part: string, s: Section, name: string): Member
  {
    Member(name, JString(TrimBoundingQuotes(r.strs(Named(part, s, name, StrKind)))))
  }

  function Num(r: Rec, part: string, s: Section, name: string): Member
  {
    Member(name, Number(r.ints(Named(part, s, name, IntKind))))
  }

  function Flag(r: Rec, part: string, s: Section, name: string): Member
  {
    Member(name, JBool(r.bools(Named(part, s, name, BoolKind))))
  }

  /** Executable and arguments, each without the quotes around it, with a blank between them if there are arguments. */
  function Command(p: Proc): string
  {
    TrimBoundingQuotes(p.exe) + if TrimBoundingQuotes(p.exeArgs) == "" then "" else " " + TrimBoundingQuotes(p.exeArgs)
  }

  function Addresses(ips: seq<int>): (es: seq<Json>)
    ensures |es| == |ips| && forall i :: 0 <= i < |es| ==> es[i] == JString(IPText(ips[i]))
  {
    seq(|ips|, i requires 0 <= i < |ips| => JString(IPText(ips[i])))
  }

  function Texts(ss: seq<string>): (es: seq<Json>)
    ensures |es| == |ss| && forall i :: 0 <= i < |es| ==> es[i] == JString(ss[i])
  {
    seq(|ss|, i requires 0 <= i < |ss| => JString(ss[i]))
  }

  function EachPid(chain: seq<Proc>): (es: seq<Json>)
    ensures |es| == |chain| && forall i :: 0 <= i < |es| ==> es[i] == Number(chain[i].pid)
  {
    seq(|chain|, i requires 0 <= i < |chain| => Number(chain[i].pid))
  }

  function EachExe(chain: seq<Proc>): (es: seq<Json>)
    ensures |es| == |chain| && forall i :: 0 <= i < |es| ==> es[i] == JString(TrimBoundingQuotes(chain[i].exe))
  {
    seq(|chain|, i requires 0 <= i < |chain| => JString(TrimBoundingQuotes(chain[i].exe)))
  }

  function EachName(chain: seq<Proc>): (es: seq<Json>)
    ensures |es| == |chain| && forall i :: 0 <= i < |es| ==> es[i] == JString(TrimBoundingQuotes(Base(chain[i].exe)))
  {
    seq(|chain|, i requires 0 <= i < |chain| => JString(TrimBoundingQuotes(Base(chain[i].exe))))
  }

  function EachCommand(chain: seq<Proc>): (es: seq<Json>)
    ensures |es| == |chain| && forall i :: 0 <= i < |es| ==> es[i] == JString(Command(chain[i]))
  {
    seq(|chain|, i requires 0 <= i < |chain| => JString(Command(chain[i])))
  }

  // ------------------------------------------------------------------
  // The members of each section.

  /** Those of the process itself; four list the chain of ancestors, the process first. */
  function ProcMembers(r: Rec, chain: seq<Proc>): seq<Member>
  {
    [Str(r, "proc", SectProc, "exe"), Num(r, "proc", SectProc, "gid"), Str(r, "proc", SectProc, "oid"),
     Num(r, "proc", SectProc, "pid"), Num(r, "proc", SectProc, "tid"), Flag(r, "proc", SectProc, "tty"),
     Num(r, "proc", SectProc, "uid"), Member("apid", JArray(EachPid(chain))), Member("aexe", JArray(EachExe(chain))),
     Str(r, "proc", SectProc, "args"), Str(r, "proc", SectProc, "name"), Str(r, "proc", SectProc, "user"),
     Member("aname", JArray(EachName(chain))), Flag(r, "proc", SectProc, "entry"), Str(r, "proc", SectProc, "group"),
     Str(r, "proc", SectProc, "cmdline"), Member("acmdline", JArray(EachCommand(chain))), Num(r, "proc", SectProc, "createts")]
  }

  /** Of a missing parent, each text is a pair of quotes. */
  function NoParentMembers(r: Rec): seq<Member>
  {
    var none := JString("\"\"");
    [Member("exe", none), Member("gid", Number(0)), Str(r, "pproc", SectPProc, "oid"), Num(r, "pproc", SectPProc, "pid"),
     Member("tty", JBool(false)), Member("uid", Number(0)), Member("args", none), Member("name", none),
     Member("user", none), Member("entry", JBool(false)), Member("group", none), Member("cmdline", none),
     Num(r, "pproc", SectPProc, "createts")]
  }

  function ParentMembers(r: Rec, p: Proc): seq<Member>
  {
    [Member("exe", JString(TrimBoundingQuotes(p.exe))), Member("gid", Number(p.gid)),
     Str(r, "pproc", SectPProc, "oid"), Num(r, "pproc", SectPProc, "pid"),
     Member("tty", JBool(p.tty)), Member("uid", Number(p.uid)),
     Member("args", JString(TrimBoundingQuotes(p.exeArgs))), Member("name", JString(TrimBoundingQuotes(Base(p.exe)))),
     Member("user", JString(TrimBoundingQuotes(p.user))), Member("entry", JBool(p.entry)),
     Member("group", JString(TrimBoundingQuotes(p.group))), Member("cmdline", JString(Command(p))),
     Num(r, "pproc", SectPProc, "createts")]
  }

  /** The parent is the second process of the chain. */
  function PProcMembers(r: Rec, chain: seq<Proc>): seq<Member>
  {
    if |chain| <= 1 then NoParentMembers(r) else ParentMembers(r, chain[1])
  }

  function FileMembers(r: Rec): seq<Member>
  {
    [Num(r, "file", SectFile, "fd"), Str(r, "file", SectFile, "oid"), Str(r, "file", SectFile, "name"),
     Str(r, "file", SectFile, "path"), Str(r, "file", SectFile, "type"), Str(r, "file", SectFile, "newoid"),
     Str(r, "file", SectFile, "newname"), Str(r, "file", SectFile, "newpath"), Str(r, "file", SectFile, "symlink"),
     Str(r, "file", SectFile, "directory"),
     Member("openflags", JArray(Texts(r.flags(Named("file", SectFile, "openflags", OpenFlagsKind))))),
     Str(r, "file", SectFile, "newsymlink"), Flag(r, "file", SectFile, "is_open_read"),
     Str(r, "file", SectFile, "newdirectory"), Flag(r, "file", SectFile, "is_open_write")]
  }

  /** Both addresses, source first, or one text, by how the field is written; the other kinds are not in the exported table. */
  function NetAddress(r: Rec, kind: Kind): Json
    requires HarmlessKind(kind)
  {
    var f := Named("net", SectNet, "ip", kind);
    match kind
    case OpenFlagsKind => JArray([JString(IPText(r.srcIP)), JString(IPText(r.dstIP))])
    case WrappedKind => JArray([JString(r.strs(f))])
    case StrKind => JString(TrimBoundingQuotes(r.strs(f)))
    case IntKind => Number(r.ints(f))
    case BoolKind => JBool(r.bools(f))
    case OpFlagsKind => JArray(Texts(r.flags(f)))
    case PortsKind => JArray([Number(r.srcPort), Number(r.dstPort)])
  }

  function NetMembers(r: Rec, netIP: Kind): seq<Member>
    requires HarmlessKind(netIP)
  {
    [Member("ip", NetAddress(r, netIP)), Str(r, "net", SectNet, "dip"), Str(r, "net", SectNet, "sip"),
     Member("port", JArray([Number(r.srcPort), Number(r.dstPort)])),
     Num(r, "net", SectNet, "dport"), Num(r, "net", SectNet, "proto"), Num(r, "net", SectNet, "sport")]
  }

  function FlowMembers(r: Rec): seq<Member>
  {
    [Num(r, "flow", SectFlow, "rops"), Num(r, "flow", SectFlow, "wops"),
     Num(r, "flow", SectFlow, "rbytes"), Num(r, "flow", SectFlow, "wbytes")]
  }

  function ContMembers(r: Rec): seq<Member>
  {
    [Str(r, "container", SectCont, "id"), Str(r, "container", SectCont, "name"), Str(r, "container", SectCont, "type"),
     Str(r, "container", SectCont, "image"), Str(r, "container", SectCont, "imageid"), Num(r, "container", SectCont, "privileged")]
  }

  function PortMembers(p: Port): seq<Member>
  {
    [Member("port", Number(p.port)), Member("targetport", Number(p.targetPort)),
     Member("nodeport", Number(p.nodePort)), Member("proto", JString(p.proto))]
  }

  function PortList(ports: seq<Port>): (es: seq<Json>)
    ensures |es| == |ports| && forall i :: 0 <= i < |es| ==> es[i] == JObject(PortMembers(ports[i]))
  {
    seq(|ports|, i requires 0 <= i < |ports| => JObject(PortMembers(ports[i])))
  }

  function ServiceMembers(s: Service): seq<Member>
  {
    [Member("id", JString(s.id)), Member("name", JString(s.name)), Member("namespace", JString(s.ns)),
     Member("clusterIP", JArray(Addresses(s.clusterIP))), Member("ports", JArray(PortList(s.ports)))]
  }

  function ServiceList(svcs: seq<Service>): (es: seq<Json>)
    ensures |es| == |svcs| && forall i :: 0 <= i < |es| ==> es[i] == JObject(ServiceMembers(svcs[i]))
  {
    seq(|svcs|, i requires 0 <= i < |svcs| => JObject(ServiceMembers(svcs[i])))
  }

  /** The fields of the three lists have a final plus sign, which their keys do not. */
  function PodMembers(r: Rec): seq<Member>
  {
    [Str(r, "pod", SectPod, "id"), Num(r, "pod", SectPod, "ts"), Str(r, "pod", SectPod, "name"),
     Member("hostip", JArray(Addresses(r.ips(Named("pod", SectPod, "hostip+", IPArrayKind))))),
     Str(r, "pod", SectPod, "nodename"), Str(r, "pod", SectPod, "namespace"),
     Member("services", JArray(ServiceList(r.services(Named("pod", SectPod, "services+", ServicesKind))))),
     Num(r, "pod", SectPod, "restartcnt"),
     Member("internalip", JArray(Addresses(r.ips(Named("pod", SectPod, "internalip+", IPArrayKind)))))]
  }

  function K8sMembers(r: Rec): seq<Member>
  {
    [Str(r, "ke", SectK8sEvt, "kind"), Str(r, "ke", SectK8sEvt, "action"), Str(r, "ke", SectK8sEvt, "message")]
  }

  function NodeMembers(r: Rec): seq<Member>
  {
    [Str(r, "node", SectNode, "id"), Str(r, "node", SectNode, "ip")]
  }

  function MetaMembers(r: Rec): seq<Member>
  {
    [Num(r, "meta", SectMeta, "schema"), Str(r, "meta", SectMeta, "tracename")]
  }

  // ------------------------------------------------------------------
  // Policies and tags.

  function PolicyMembers(info: C.RuleInfo): seq<Member>
  {
    [Member("id", JString(info.name)), Member("desc", JString(info.desc)), Member("priority", Number(info.priority))]
  }

  function PolicyList(rules: seq<C.RuleInfo>): (es: seq<Json>)
    ensures |es| == |rules| && forall i :: 0 <= i < |es| ==> es[i] == JObject(PolicyMembers(rules[i]))
  {
    seq(|rules|, i requires 0 <= i < |rules| => JObject(PolicyMembers(rules[i])))
  }

  function TagTexts(tags: seq<C.Tag>): seq<string>
  {
    if tags == [] then []
    else (match tags[0] case OneTag(t) => [t] case TagList(ts) => ts) + TagTexts(tags[1..])
  }

  /** The tags of the rules, rule by rule. */
  function TagsOfRules(rules: seq<C.RuleInfo>): seq<string>
  {
    if rules == [] then [] else TagTexts(rules[0].tags) + TagsOfRules(rules[1..])
  }

  // ------------------------------------------------------------------
  // The object.

  ghost predicate UniqueKeys(ms: seq<Member>)
  {
    forall i, j :: 0 <= i < j < |ms| ==> ms[i].key != ms[j].key
  }

  ghost predicate SameMembers(ns: seq<Member>, ms: seq<Member>)
  {
    forall m: Member :: m in ns <==> m in ms
  }

  ghost predicate IsObjectOf(ns: seq<Member>, expected: seq<Member>)
  {
    UniqueKeys(ns) && SameMembers(ns, expected)
  }

  ghost predicate NoKey(ms: seq<Member>, key: string)
  {
    forall m: Member :: m in ms ==> m.key != key
  }

  ghost predicate HasValue(ms: seq<Member>, key: string, v: Json)
  {
    Member(key, v) in ms
  }

  ghost predicate HasObject(ms: seq<Member>, key: string, expected: seq<Member>)
  {
    exists ns :: IsObjectOf(ns, expected) && HasValue(ms, key, JObject(ns))
  }

  /** Under `key` stands an object with exactly the members expected, or the key is not there. */
  ghost predicate HasSection(ms: seq<Member>, key: string, shown: bool, expected: seq<Member>)
  {
    if shown then HasObject(ms, key, expected) else NoKey(ms, key)
  }

  predicate IsRootKey(key: string)
  {
    key == "version" || key == "type" || key == "opflags" || key == "ret" || key == "ts" || key == "endts"
    || key == "proc" || key == "pproc" || key == "file" || key == "net" || key == "flow" || key == "container" || key == "pod"
    || key == "node" || key == "meta" || key == "k8s" || key == "policies" || key == "tags"
  }

  /** What every record has. */
  ghost predicate HasGeneral(ms: seq<Member>, r: Rec, version: string)
  {
    HasValue(ms, "version", JNumber(version))
    && HasValue(ms, "type", JString(TrimBoundingQuotes(r.strs(Field(["sf", "type"], SectNone, StrKind)))))
    && HasValue(ms, "opflags", JArray(Texts(r.flags(Field(["sf", "opflags"], SectNone, OpFlagsKind)))))
    && HasValue(ms, "ret", Number(r.ints(Field(["sf", "ret"], SectNone, IntKind))))
    && HasValue(ms, "ts", Number(r.ints(Field(["sf", "ts"], SectNone, IntKind))))
    && HasValue(ms, "endts", Number(r.ints(Field(["sf", "endts"], SectNone, IntKind))))
    && HasObject(ms, "node", NodeMembers(r)) && HasObject(ms, "meta", MetaMembers(r))
  }

  /** The process and its ancestors; an `Encodable` record lacks them only if it is a Kubernetes event. */
  function ChainOf(r: Rec): seq<Proc>
  {
    if r.ptree.Some? then r.ptree.value else []
  }

  /** The sections that depend on the type of the record and on what it has. */
  ghost predicate HasSections(ms: seq<Member>, r: Rec, netIP: Kind)
    requires HarmlessKind(netIP)
  {
    HasSection(ms, "k8s", r.rtype == K8sEvent, K8sMembers(r))
    && HasSection(ms, "proc", r.rtype != K8sEvent, ProcMembers(r, ChainOf(r)))
    && HasSection(ms, "pproc", r.rtype != K8sEvent && r.parentPID != 0, PProcMembers(r, ChainOf(r)))
    && HasSection(ms, "net", r.rtype == NetFlow, NetMembers(r, netIP))
    && HasSection(ms, "file", r.rtype == FileFlow || r.rtype == FileEvent, FileMembers(r))
    && HasSection(ms, "flow", r.rtype == FileFlow || r.rtype == NetFlow, FlowMembers(r))
    && HasSection(ms, "container", r.rtype != K8sEvent && r.contID != "", ContMembers(r))
    && HasSection(ms, "pod", r.rtype != K8sEvent && r.podID != "", PodMembers(r))
  }

  /** Policies if rules matched, tags if the context or a rule has some: those of the context first. */
  ghost predicate HasOutcome(ms: seq<Member>, r: Rec)
  {
    var tags := r.tags + TagsOfRules(r.rules);
    (if r.rules == [] then NoKey(ms, "policies") else HasValue(ms, "policies", JArray(PolicyList(r.rules))))
    && (if tags == [] then NoKey(ms, "tags") else HasValue(ms, "tags", JArray(Texts(tags))))
  }

  /** These are the members of the record's object, each once and no others. */
  ghost predicate AreMembersOf(ms: seq<Member>, r: Rec, version: string, netIP: Kind)
    requires HarmlessKind(netIP)
  {
    UniqueKeys(ms) && (forall m: Member :: m in ms ==> IsRootKey(m.key))
    && HasGeneral(ms, r, version) && HasSections(ms, r, netIP) && HasOutcome(ms, r)
  }

  // ------------------------------------------------------------------
  // Fields and members.

  ghost predicate FieldIs(r: Rec, f: Field, html: bool, m: Member)
  {
    m.key == f.Key() && FieldValue(r, f, html).value == Some(m.value)
  }

  /** The members listed are those of the fields listed, one for one, from `lo` up to `hi`. */
  ghost predicate ListedIn(r: Rec, s: Section, es: seq<Entry>, html: bool, ms: seq<Member>, lo: nat, hi: nat)
  {
    hi <= |ms| == |es| && forall i :: lo <= i < hi ==> FieldIs(r, Of3(s, es[i]), html, ms[i])
  }

  ghost predicate Listed(r: Rec, s: Section, es: seq<Entry>, html: bool, ms: seq<Member>)
  {
    |ms| == |es| && forall i :: 0 <= i < |es| ==> FieldIs(r, Of3(s, es[i]), html, ms[i])
  }

  lemma KeyIs(s: Section, e: Entry)
    requires PlusFree(e.name)
    ensures Of3(s, e).Key() == e.name
  {
  }

  /** Texts, numbers and flags under their own names. */
  lemma SimpleField(r: Rec, s: Section, e: Entry, html: bool)
    requires PlusFree(e.name)
    ensures e.kind == StrKind ==> FieldIs(r, Of3(s, e), html, Str(r, Component(s), s, e.name))
    ensures e.kind == IntKind ==> FieldIs(r, Of3(s, e), html, Num(r, Component(s), s, e.name))
    ensures e.kind == BoolKind ==> FieldIs(r, Of3(s, e), html, Flag(r, Component(s), s, e.name))
  {
    KeyIs(s, e);
  }

  lemma SameList(es: seq<Json>, fs: seq<Json>)
    requires |es| == |fs| && forall i :: 0 <= i < |es| ==> es[i] == fs[i]
    ensures JArray(es) == JArray(fs)
  {
    assert es == fs;
  }

  lemma CommandIs(p: Proc)
    ensures Command(p) == CmdLine(p)
  {
    var exe := TrimBoundingQuotes(p.exe);
    assert exe + "" == exe;
    Associate(exe, " ", TrimBoundingQuotes(p.exeArgs));
  }

  lemma PidList(chain: seq<Proc>)
    ensures PtreeValue(ProcAPID, chain) == JArray(EachPid(chain))
  {
    SameList(PtreeElements(ProcAPID, chain), EachPid(chain));
  }

  lemma ExeList(chain: seq<Proc>)
    ensures PtreeValue(ProcAExe, chain) == JArray(EachExe(chain))
  {
    SameList(PtreeElements(ProcAExe, chain), EachExe(chain));
  }

  lemma NameList(chain: seq<Proc>)
    ensures PtreeValue(ProcAName, chain) == JArray(EachName(chain))
  {
    SameList(PtreeElements(ProcAName, chain), EachName(chain));
  }

  lemma CommandList(chain: seq<Proc>)
    ensures PtreeValue(ProcACmdLine, chain) == JArray(EachCommand(chain))
  {
    forall i | 0 <= i < |chain| ensures PtreeElements(ProcACmdLine, chain)[i] == EachCommand(chain)[i] {
      CommandIs(chain[i]);
    }
    SameList(PtreeElements(ProcACmdLine, chain), EachCommand(chain));
  }

  lemma ChainField(r: Rec, s: Section, name: string, attr: PtreeAttr, html: bool, m: Member)
    requires PlusFree(name) && r.ptree.Some? && m == Member(name, PtreeValue(attr, r.ptree.value))
    ensures FieldIs(r, Of3(s, Entry(name, PtreeKind(attr))), html, m)
  {
    KeyIs(s, Entry(name, PtreeKind(attr)));
  }

  /** The lists over the chain of ancestors. */
  lemma ChainMembers(r: Rec, chain: seq<Proc>, html: bool)
    requires r.ptree == Some(chain)
    ensures FieldIs(r, Of3(SectProc, Entry("apid", PtreeKind(ProcAPID))), html, Member("apid", JArray(EachPid(chain))))
    ensures FieldIs(r, Of3(SectProc, Entry("aexe", PtreeKind(ProcAExe))), html, Member("aexe", JArray(EachExe(chain))))
    ensures FieldIs(r, Of3(SectProc, Entry("aname", PtreeKind(ProcAName))), html, Member("aname", JArray(EachName(chain))))
    ensures FieldIs(r, Of3(SectProc, Entry("acmdline", PtreeKind(ProcACmdLine))), html, Member("acmdline", JArray(EachCommand(chain))))
  {
    PidList(chain);
    ExeList(chain);
    NameList(chain);
    CommandList(chain);
    ChainField(r, SectProc, "apid", ProcAPID, html, Member("apid", JArray(EachPid(chain))));
    ChainField(r, SectProc, "aexe", ProcAExe, html, Member("aexe", JArray(EachExe(chain))));
    ChainField(r, SectProc, "aname", ProcAName, html, Member("aname", JArray(EachName(chain))));
    ChainField(r, SectProc, "acmdline", ProcACmdLine, html, Member("acmdline", JArray(EachCommand(chain))));
  }

  /** The entry has a plain kind, and the member is that of its name. */
  predicate IsSimple(r: Rec, s: Section, e: Entry, m: Member)
  {
    match e.kind
    case StrKind => m == Str(r, Component(s), s, e.name)
    case IntKind => m == Num(r, Component(s), s, e.name)
    case BoolKind => m == Flag(r, Component(s), s, e.name)
    case _ => false
  }

  lemma SimpleAt(r: Rec, s: Section, e: Entry, html: bool, m: Member)
    requires PlusFree(e.name) && IsSimple(r, s, e, m)
    ensures FieldIs(r, Of3(s, e), html, m)
  {
    SimpleField(r, s, e, html);
  }

  lemma SimpleListed(r: Rec, s: Section, es: seq<Entry>, html: bool, ms: seq<Member>, i: nat)
    requires PlusFreeNames(es) && i < |es| == |ms| && IsSimple(r, s, es[i], ms[i])
    ensures FieldIs(r, Of3(s, es[i]), html, ms[i])
  {
    SimpleAt(r, s, es[i], html, ms[i]);
  }

  predicate SimpleIn(r: Rec, s: Section, es: seq<Entry>, ms: seq<Member>, lo: nat, hi: nat)
  {
    hi <= |ms| == |es| && forall i :: lo <= i < hi ==> IsSimple(r, s, es[i], ms[i])
  }

  lemma ProcSimpleFirst(r: Rec, chain: seq<Proc>, netIP: Kind)
    ensures SimpleIn(r, SectProc, Entries(SectProc, netIP), ProcMembers(r, chain), 0, 7)
  {
  }

  lemma ProcSimpleSecond(r: Rec, chain: seq<Proc>, netIP: Kind)
    ensures SimpleIn(r, SectProc, Entries(SectProc, netIP), ProcMembers(r, chain), 9, 12)
    ensures SimpleIn(r, SectProc, Entries(SectProc, netIP), ProcMembers(r, chain), 13, 16)
    ensures SimpleIn(r, SectProc, Entries(SectProc, netIP), ProcMembers(r, chain), 17, 18)
  {
  }

  lemma ProcChainEntries(netIP: Kind)
    ensures var es := Entries(SectProc, netIP);
            es[7] == Entry("apid", PtreeKind(ProcAPID)) && es[8] == Entry("aexe", PtreeKind(ProcAExe))
            && es[12] == Entry("aname", PtreeKind(ProcAName)) && es[16] == Entry("acmdline", PtreeKind(ProcACmdLine))
  {
  }

  lemma ProcChainMembers(r: Rec, chain: seq<Proc>)
    ensures var ms := ProcMembers(r, chain);
            ms[7] == Member("apid", JArray(EachPid(chain))) && ms[8] == Member("aexe", JArray(EachExe(chain)))
            && ms[12] == Member("aname", JArray(EachName(chain))) && ms[16] == Member("acmdline", JArray(EachCommand(chain)))
  {
  }

  lemma ProcListed(r: Rec, chain: seq<Proc>, netIP: Kind, html: bool)
    requires r.ptree == Some(chain)
    ensures Listed(r, SectProc, Entries(SectProc, netIP), html, ProcMembers(r, chain))
  {
    var es, ms := Entries(SectProc, netIP), ProcMembers(r, chain);
    ProcPlusFree(netIP);
    ProcSimpleFirst(r, chain, netIP);
    ProcSimpleSecond(r, chain, netIP);
    ProcChainEntries(netIP);
    ProcChainMembers(r, chain);
    ChainMembers(r, chain, html);
    forall i | 0 <= i < |es| ensures FieldIs(r, Of3(SectProc, es[i]), html, ms[i]) {
      if i != 7 && i != 8 && i != 12 && i != 16 {
        SimpleListed(r, SectProc, es, html, ms, i);
      }
    }
  }

  /** The entry is an attribute of the chain, and the member is its value. */
  predicate IsOfChain(chain: seq<Proc>, e: Entry, m: Member)
  {
    e.kind.PtreeKind? && m == Member(e.name, PtreeValue(e.kind.attr, chain))
  }

  lemma ChainListed(r: Rec, chain: seq<Proc>, s: Section, es: seq<Entry>, html: bool, ms: seq<Member>, i: nat)
    requires r.ptree == Some(chain) && PlusFreeNames(es) && i < |es| == |ms| && IsOfChain(chain, es[i], ms[i])
    ensures FieldIs(r, Of3(s, es[i]), html, ms[i])
  {
    ChainField(r, s, es[i].name, es[i].kind.attr, html, ms[i]);
  }

  lemma PProcEntriesFirst(netIP: Kind)
    ensures var es := Entries(SectPProc, netIP);
            |es| == 13 && es[0] == Entry("exe", PtreeKind(PProcExe)) && es[1] == Entry("gid", PtreeKind(PProcGID))
            && es[4] == Entry("tty", PtreeKind(PProcTTY)) && es[5] == Entry("uid", PtreeKind(PProcUID))
            && es[6] == Entry("args", PtreeKind(PProcArgs))
  {
  }

  lemma PProcEntriesSecond(netIP: Kind)
    ensures var es := Entries(SectPProc, netIP);
            |es| == 13 && es[7] == Entry("name", PtreeKind(PProcName)) && es[8] == Entry("user", PtreeKind(PProcUser))
            && es[9] == Entry("entry", PtreeKind(PProcEntry)) && es[10] == Entry("group", PtreeKind(PProcGroup))
            && es[11] == Entry("cmdline", PtreeKind(PProcCmdLine))
  {
  }

  predicate IsOfParent(i: nat)
  {
    i == 0 || i == 1 || 4 <= i < 12
  }

  /** The attributes of the parent, in the order of the table. */
  function ParentEntry(i: nat): (string, PtreeAttr)
    requires IsOfParent(i)
  {
    match i
    case 0 => ("exe", PProcExe)
    case 1 => ("gid", PProcGID)
    case 4 => ("tty", PProcTTY)
    case 5 => ("uid", PProcUID)
    case 6 => ("args", PProcArgs)
    case 7 => ("name", PProcName)
    case 8 => ("user", PProcUser)
    case 9 => ("entry", PProcEntry)
    case 10 => ("group", PProcGroup)
    case _ => ("cmdline", PProcCmdLine)
  }

  function ParentMember(chain: seq<Proc>, i: nat): Member
    requires IsOfParent(i)
  {
    Member(ParentEntry(i).0, PtreeValue(ParentEntry(i).1, chain))
  }

  predicate IsPart(ms: seq<Member>, chain: seq<Proc>, i: nat)
    requires IsOfParent(i)
  {
    i < |ms| && ms[i] == ParentMember(chain, i)
  }

  lemma NoParentFirst(r: Rec, chain: seq<Proc>)
    requires |chain| <= 1
    ensures var ms := NoParentMembers(r);
            IsPart(ms, chain, 0) && IsPart(ms, chain, 1) && IsPart(ms, chain, 4) && IsPart(ms, chain, 5) && IsPart(ms, chain, 6)
  {
  }

  lemma NoParentSecond(r: Rec, chain: seq<Proc>)
    requires |chain| <= 1
    ensures var ms := NoParentMembers(r);
            IsPart(ms, chain, 7) && IsPart(ms, chain, 8) && IsPart(ms, chain, 9) && IsPart(ms, chain, 10) && IsPart(ms, chain, 11)
  {
  }

  lemma ParentFirst(r: Rec, chain: seq<Proc>)
    requires |chain| > 1
    ensures var ms := ParentMembers(r, chain[1]);
            IsPart(ms, chain, 0) && IsPart(ms, chain, 1) && IsPart(ms, chain, 4) && IsPart(ms, chain, 5) && IsPart(ms, chain, 6)
  {
  }

  lemma ParentSecond(r: Rec, chain: seq<Proc>)
    requires |chain| > 1
    ensures var ms := ParentMembers(r, chain[1]); IsPart(ms, chain, 7) && IsPart(ms, chain, 8)
  {
  }

  lemma ParentThird(r: Rec, chain: seq<Proc>)
    requires |chain| > 1
    ensures var ms := ParentMembers(r, chain[1]); IsPart(ms, chain, 9) && IsPart(ms, chain, 10)
  {
  }

  lemma ParentCommand(chain: seq<Proc>)
    requires |chain| > 1
    ensures PtreeValue(PProcCmdLine, chain) == JString(Command(chain[1]))
  {
    CommandIs(chain[1]);
  }

  lemma ParentFourth(r: Rec, chain: seq<Proc>)
    requires |chain| > 1
    ensures IsPart(ParentMembers(r, chain[1]), chain, 11)
  {
    ParentCommand(chain);
  }

  lemma PProcEntryAt(netIP: Kind, i: nat)
    requires IsOfParent(i)
    ensures |Entries(SectPProc, netIP)| == 13
    ensures Entries(SectPProc, netIP)[i] == Entry(ParentEntry(i).0, PtreeKind(ParentEntry(i).1))
  {
    if i < 7 {
      PProcEntriesFirst(netIP);
    } else {
      PProcEntriesSecond(netIP);
    }
  }

  lemma NoParentPart(r: Rec, chain: seq<Proc>, i: nat)
    requires IsOfParent(i) && |chain| <= 1
    ensures IsPart(NoParentMembers(r), chain, i)
  {
    if i < 7 {
      NoParentFirst(r, chain);
    } else {
      NoParentSecond(r, chain);
    }
  }

  lemma ParentPart(r: Rec, chain: seq<Proc>, i: nat)
    requires IsOfParent(i) && |chain| > 1
    ensures IsPart(ParentMembers(r, chain[1]), chain, i)
  {
    if i < 7 {
      ParentFirst(r, chain);
    } else if i < 9 {
      ParentSecond(r, chain);
    } else if i < 11 {
      ParentThird(r, chain);
    } else {
      ParentFourth(r, chain);
    }
  }

  lemma PProcPart(r: Rec, chain: seq<Proc>, i: nat)
    requires IsOfParent(i)
    ensures IsPart(PProcMembers(r, chain), chain, i)
  {
    if |chain| <= 1 {
      NoParentPart(r, chain, i);
    } else {
      ParentPart(r, chain, i);
    }
  }

  lemma PProcOfChain(r: Rec, chain: seq<Proc>, netIP: Kind, i: nat)
    requires IsOfParent(i)
    ensures |Entries(SectPProc, netIP)| == |PProcMembers(r, chain)| == 13
    ensures IsOfChain(chain, Entries(SectPProc, netIP)[i], PProcMembers(r, chain)[i])
  {
    PProcEntryAt(netIP, i);
    PProcPart(r, chain, i);
  }

  lemma PProcSimple(r: Rec, chain: seq<Proc>, netIP: Kind)
    ensures SimpleIn(r, SectPProc, Entries(SectPProc, netIP), PProcMembers(r, chain), 2, 4)
    ensures SimpleIn(r, SectPProc, Entries(SectPProc, netIP), PProcMembers(r, chain), 12, 13)
  {
  }

  lemma PProcListed(r: Rec, chain: seq<Proc>, netIP: Kind, html: bool)
    requires r.ptree == Some(chain)
    ensures Listed(r, SectPProc, Entries(SectPProc, netIP), html, PProcMembers(r, chain))
  {
    var es, ms := Entries(SectPProc, netIP), PProcMembers(r, chain);
    PProcPlusFree(netIP);
    PProcSimple(r, chain, netIP);
    forall i | 0 <= i < |es| ensures FieldIs(r, Of3(SectPProc, es[i]), html, ms[i]) {
      if IsOfParent(i) {
        PProcOfChain(r, chain, netIP, i);
        ChainListed(r, chain, SectPProc, es, html, ms, i);
      } else {
        SimpleListed(r, SectPProc, es, html, ms, i);
      }
    }
  }

  lemma FileSimple(r: Rec, netIP: Kind)
    ensures SimpleIn(r, SectFile, Entries(SectFile, netIP), FileMembers(r), 0, 5)
    ensures SimpleIn(r, SectFile, Entries(SectFile, netIP), FileMembers(r), 5, 10)
    ensures SimpleIn(r, SectFile, Entries(SectFile, netIP), FileMembers(r), 11, 15)
  {
  }

  lemma OpenFlagsMember(r: Rec, html: bool)
    requires r.rtype != NetFlow
    ensures FieldIs(r, Of3(SectFile, Entry("openflags", OpenFlagsKind)), html,
                    Member("openflags", JArray(Texts(r.flags(Named("file", SectFile, "openflags", OpenFlagsKind))))))
  {
    KeyIs(SectFile, Entry("openflags", OpenFlagsKind));
    var f := Named("file", SectFile, "openflags", OpenFlagsKind);
    SameList(Strings(r.flags(f)), Texts(r.flags(f)));
  }

  lemma OpenFlagsEntry(netIP: Kind)
    ensures |Entries(SectFile, netIP)| == 15 && Entries(SectFile, netIP)[10] == Entry("openflags", OpenFlagsKind)
  {
  }

  lemma OpenFlagsPlace(r: Rec)
    ensures |FileMembers(r)| == 15
    ensures FileMembers(r)[10] == Member("openflags", JArray(Texts(r.flags(Named("file", SectFile, "openflags", OpenFlagsKind)))))
  {
  }

  lemma FileListed(r: Rec, netIP: Kind, html: bool)
    requires r.rtype != NetFlow
    ensures Listed(r, SectFile, Entries(SectFile, netIP), html, FileMembers(r))
  {
    var es, ms := Entries(SectFile, netIP), FileMembers(r);
    FilePlusFree(netIP);
    FileSimple(r, netIP);
    OpenFlagsMember(r, html);
    OpenFlagsEntry(netIP);
    OpenFlagsPlace(r);
    forall i | 0 <= i < |es| ensures FieldIs(r, Of3(SectFile, es[i]), html, ms[i]) {
      if i != 10 {
        SimpleListed(r, SectFile, es, html, ms, i);
      }
    }
  }

  lemma NetAddressMember(r: Rec, netIP: Kind, html: bool)
    requires HarmlessKind(netIP) && r.rtype == NetFlow
    ensures FieldIs(r, Of3(SectNet, Entry("ip", netIP)), html, Member("ip", NetAddress(r, netIP)))
  {
    KeyIs(SectNet, Entry("ip", netIP));
    var f := Named("net", SectNet, "ip", netIP);
    SameList(Strings(r.flags(f)), Texts(r.flags(f)));
  }

  lemma NetPortMember(r: Rec, html: bool)
    ensures FieldIs(r, Of3(SectNet, Entry("port", PortsKind)), html, Member("port", JArray([Number(r.srcPort), Number(r.dstPort)])))
  {
    KeyIs(SectNet, Entry("port", PortsKind));
  }

  lemma NetSimple(r: Rec, netIP: Kind)
    requires HarmlessKind(netIP)
    ensures SimpleIn(r, SectNet, Entries(SectNet, netIP), NetMembers(r, netIP), 1, 3)
    ensures SimpleIn(r, SectNet, Entries(SectNet, netIP), NetMembers(r, netIP), 4, 7)
  {
  }

  lemma NetListed(r: Rec, netIP: Kind, html: bool)
    requires HarmlessKind(netIP) && r.rtype == NetFlow
    ensures Listed(r, SectNet, Entries(SectNet, netIP), html, NetMembers(r, netIP))
  {
    var es, ms := Entries(SectNet, netIP), NetMembers(r, netIP);
    OnlyPodsHavePlus(SectNet, netIP);
    NetSimple(r, netIP);
    NetAddressMember(r, netIP, html);
    NetPortMember(r, html);
    forall i | 0 <= i < |es| ensures FieldIs(r, Of3(SectNet, es[i]), html, ms[i]) {
      if i != 0 && i != 3 {
        SimpleListed(r, SectNet, es, html, ms, i);
      }
    }
  }

  lemma AllSimpleListed(r: Rec, s: Section, es: seq<Entry>, html: bool, ms: seq<Member>)
    requires PlusFreeNames(es) && SimpleIn(r, s, es, ms, 0, |ms|)
    ensures Listed(r, s, es, html, ms)
  {
    forall i | 0 <= i < |es| ensures FieldIs(r, Of3(s, es[i]), html, ms[i]) {
      SimpleListed(r, s, es, html, ms, i);
    }
  }

  lemma FlowListed(r: Rec, netIP: Kind, html: bool)
    ensures Listed(r, SectFlow, Entries(SectFlow, netIP), html, FlowMembers(r))
  {
    OnlyPodsHavePlus(SectFlow, netIP);
    AllSimpleListed(r, SectFlow, Entries(SectFlow, netIP), html, FlowMembers(r));
  }

  lemma ContListed(r: Rec, netIP: Kind, html: bool)
    ensures Listed(r, SectCont, Entries(SectCont, netIP), html, ContMembers(r))
  {
    OnlyPodsHavePlus(SectCont, netIP);
    AllSimpleListed(r, SectCont, Entries(SectCont, netIP), html, ContMembers(r));
  }

  lemma K8sListed(r: Rec, netIP: Kind, html: bool)
    ensures Listed(r, SectK8sEvt, Entries(SectK8sEvt, netIP), html, K8sMembers(r))
  {
    OnlyPodsHavePlus(SectK8sEvt, netIP);
    AllSimpleListed(r, SectK8sEvt, Entries(SectK8sEvt, netIP), html, K8sMembers(r));
  }

  lemma NodeListed(r: Rec, netIP: Kind, html: bool)
    ensures Listed(r, SectNode, Entries(SectNode, netIP), html, NodeMembers(r))
  {
    OnlyPodsHavePlus(SectNode, netIP);
    AllSimpleListed(r, SectNode, Entries(SectNode, netIP), html, NodeMembers(r));
  }

  lemma MetaListed(r: Rec, netIP: Kind, html: bool)
    ensures Listed(r, SectMeta, Entries(SectMeta, netIP), html, MetaMembers(r))
  {
    OnlyPodsHavePlus(SectMeta, netIP);
    AllSimpleListed(r, SectMeta, Entries(SectMeta, netIP), html, MetaMembers(r));
  }

  // ------------------------------------------------------------------
  // Pods and services.

  lemma AddressValue(ips: seq<int>)
    requires |ips| <= 1
    ensures IPArray(ips).value == Some(JArray(Addresses(ips)))
  {
    if ips == [] {
      assert Addresses(ips) == [];
    } else {
      assert Addresses(ips) == [JString(IPText(ips[0]))];
    }
  }

  lemma PortValues(ports: seq<Port>)
    ensures JArray(Ports(ports)) == JArray(PortList(ports))
  {
    SameList(Ports(ports), PortList(ports));
  }

  lemma FiveMembers(ps: seq<Piece>, ms: seq<Member>)
    requires |ps| == |ms| == 5
    requires forall i :: 0 <= i < 5 ==> ps[i].key == ms[i].key && ps[i].value == Some(ms[i].value)
    ensures ObjectValue(ps) == Some(JObject(ms))
  {
    assert Members(ps) == ms;
  }

  lemma ServiceValue(s: Service, html: bool)
    requires |s.clusterIP| <= 1
    ensures ObjectValue(ServicePieces(s, html)) == Some(JObject(ServiceMembers(s)))
  {
    AddressValue(s.clusterIP);
    PortValues(s.ports);
    FiveMembers(ServicePieces(s, html), ServiceMembers(s));
  }

  lemma ServicesValue(svcs: seq<Service>, html: bool)
    requires |svcs| <= 1 && forall i :: 0 <= i < |svcs| ==> |svcs[i].clusterIP| <= 1
    ensures ServiceArray(svcs, html).value == Some(JArray(ServiceList(svcs)))
  {
    if svcs == [] {
      assert ServiceList(svcs) == [];
    } else {
      ServiceValue(svcs[0], html);
      assert ServiceList(svcs) == [JObject(ServiceMembers(svcs[0]))];
    }
  }

  lemma KeyWithoutPlus(s: Section, stem: string, kind: Kind)
    ensures Of3(s, Entry(stem + "+", kind)).Key() == stem
  {
    PlusLast(stem);
  }

  lemma PodLists(r: Rec, html: bool)
    requires Separable(r, HOSTIP) && Separable(r, INTERNALIP) && Separable(r, SERVICES)
    ensures FieldIs(r, HOSTIP, html, Member("hostip", JArray(Addresses(r.ips(HOSTIP)))))
    ensures FieldIs(r, INTERNALIP, html, Member("internalip", JArray(Addresses(r.ips(INTERNALIP)))))
    ensures FieldIs(r, SERVICES, html, Member("services", JArray(ServiceList(r.services(SERVICES)))))
  {
    KeyWithoutPlus(SectPod, "hostip", IPArrayKind);
    KeyWithoutPlus(SectPod, "internalip", IPArrayKind);
    KeyWithoutPlus(SectPod, "services", ServicesKind);
    assert "hostip" + "+" == "hostip+" && "internalip" + "+" == "internalip+" && "services" + "+" == "services+";
    AddressValue(r.ips(HOSTIP));
    AddressValue(r.ips(INTERNALIP));
    ServicesValue(r.services(SERVICES), html);
  }

  predicate IsPodList(i: nat)
  {
    i == 3 || i == 6 || i == 8
  }

  lemma PodSimpleFirst(r: Rec, netIP: Kind)
    ensures SimpleIn(r, SectPod, Entries(SectPod, netIP), PodMembers(r), 0, 3)
  {
  }

  lemma PodSimpleSecond(r: Rec, netIP: Kind)
    ensures SimpleIn(r, SectPod, Entries(SectPod, netIP), PodMembers(r), 4, 6)
    ensures SimpleIn(r, SectPod, Entries(SectPod, netIP), PodMembers(r), 7, 8)
  {
  }

  lemma PodListEntries(netIP: Kind)
    ensures var es := Entries(SectPod, netIP);
            |es| == 9 && Of3(SectPod, es[3]) == HOSTIP && Of3(SectPod, es[6]) == SERVICES && Of3(SectPod, es[8]) == INTERNALIP
  {
  }

  lemma PodListMembers(r: Rec)
    ensures var ms := PodMembers(r);
            ms[3] == Member("hostip", JArray(Addresses(r.ips(HOSTIP))))
            && ms[6] == Member("services", JArray(ServiceList(r.services(SERVICES))))
            && ms[8] == Member("internalip", JArray(Addresses(r.ips(INTERNALIP))))
  {
  }

  lemma PodListAt(r: Rec, netIP: Kind, html: bool, i: nat)
    requires Separable(r, HOSTIP) && Separable(r, INTERNALIP) && Separable(r, SERVICES) && IsPodList(i)
    ensures |Entries(SectPod, netIP)| == |PodMembers(r)| == 9
    ensures FieldIs(r, Of3(SectPod, Entries(SectPod, netIP)[i]), html, PodMembers(r)[i])
  {
    PodLists(r, html);
    PodListEntries(netIP);
    PodListMembers(r);
  }

  lemma PodListed(r: Rec, netIP: Kind, html: bool)
    requires Separable(r, HOSTIP) && Separable(r, INTERNALIP) && Separable(r, SERVICES)
    ensures Listed(r, SectPod, Entries(SectPod, netIP), html, PodMembers(r))
  {
    var es, ms := Entries(SectPod, netIP), PodMembers(r);
    PodSimpleFirst(r, netIP);
    PodSimpleSecond(r, netIP);
    PodNames(netIP);
    forall i | 0 <= i < |es| ensures FieldIs(r, Of3(SectPod, es[i]), html, ms[i]) {
      if IsPodList(i) {
        PodListAt(r, netIP, html, i);
      } else {
        SimpleAt(r, SectPod, es[i], html, ms[i]);
      }
    }
  }

  // ------------------------------------------------------------------
  // The sections of the tree.

  /** The members that the object of a shown section is to have. */
  function SectionMembers(r: Rec, s: Section, netIP: Kind): seq<Member>
    requires HarmlessKind(netIP)
  {
    match s
    case SectNone => []
    case SectProc => ProcMembers(r, ChainOf(r))
    case SectPProc => PProcMembers(r, ChainOf(r))
    case SectFile => FileMembers(r)
    case SectNet => NetMembers(r, netIP)
    case SectFlow => FlowMembers(r)
    case SectCont => ContMembers(r)
    case SectPod => PodMembers(r)
    case SectK8sEvt => K8sMembers(r)
    case SectNode => NodeMembers(r)
    case SectMeta => MetaMembers(r)
  }

  lemma SectionListed(r: Rec, s: Section, netIP: Kind, html: bool)
    requires HarmlessKind(netIP) && Encodable(r) && s != SectNone && StatusOf(r, s) == Shown
    ensures Listed(r, s, Entries(s, netIP), html, SectionMembers(r, s, netIP))
  {
    match s
    case SectProc => ProcListed(r, r.ptree.value, netIP, html);
    case SectPProc => PProcListed(r, r.ptree.value, netIP, html);
    case SectFile => FileListed(r, netIP, html);
    case SectNet => NetListed(r, netIP, html);
    case SectFlow => FlowListed(r, netIP, html);
    case SectCont => ContListed(r, netIP, html);
    case SectPod => PodListed(r, netIP, html);
    case SectK8sEvt => K8sListed(r, netIP, html);
    case SectNode => NodeListed(r, netIP, html);
    case SectMeta => MetaListed(r, netIP, html);
  }

  lemma InMembers(ps: seq<Piece>, m: Member)
    requires Readable(ps)
    ensures m in Members(ps) <==> exists i :: 0 <= i < |ps| && ps[i].key == m.key && ps[i].value == Some(m.value)
  {
    if m in Members(ps) {
      var i :| 0 <= i < |Members(ps)| && Members(ps)[i] == m;
      assert ps[i].key == m.key && ps[i].value == Some(m.value);
    }
    if exists i :: 0 <= i < |ps| && ps[i].key == m.key && ps[i].value == Some(m.value) {
      var i :| 0 <= i < |ps| && ps[i].key == m.key && ps[i].value == Some(m.value);
      assert Members(ps)[i] == m;
    }
  }

  lemma InAttrs(r: Rec, fields: seq<Field>, html: bool, m: Member)
    requires Readable(Attrs(r, fields, html))
    ensures m in Members(Attrs(r, fields, html)) <==> exists f: Field :: f in fields && FieldIs(r, f, html, m)
  {
    var ps := Attrs(r, fields, html);
    InMembers(ps, m);
    if m in Members(ps) {
      var i :| 0 <= i < |ps| && ps[i].key == m.key && ps[i].value == Some(m.value);
      assert fields[i] in fields && FieldIs(r, fields[i], html, m);
    }
    if exists f: Field :: f in fields && FieldIs(r, f, html, m) {
      var f: Field :| f in fields && FieldIs(r, f, html, m);
      var i :| 0 <= i < |fields| && fields[i] == f;
      assert ps[i] == Attr(r, f, html);
    }
  }

  /** What a list of fields has is what the list of members says. */
  lemma ListedMembers(r: Rec, s: Section, es: seq<Entry>, html: bool, ms: seq<Member>, m: Member)
    requires Listed(r, s, es, html, ms)
    ensures m in ms <==> exists e: Entry :: e in es && FieldIs(r, Of3(s, e), html, m)
  {
    if m in ms {
      var i :| 0 <= i < |ms| && ms[i] == m;
      assert es[i] in es && FieldIs(r, Of3(s, es[i]), html, m);
    }
    if exists e: Entry :: e in es && FieldIs(r, Of3(s, e), html, m) {
      var e: Entry :| e in es && FieldIs(r, Of3(s, e), html, m);
      var i :| 0 <= i < |es| && es[i] == e;
      assert FieldIs(r, Of3(s, es[i]), html, ms[i]);
      assert ms[i] == m;
    }
  }

  lemma {:induction false} InSectionOf(fields: seq<Field>, s: Section, f: Field)
    ensures f in OfSection(fields, s) <==> f in fields && f.section == s
  {
    if fields != [] {
      var init, last := fields[..|fields| - 1], fields[|fields| - 1];
      InSectionOf(init, s, f);
      assert fields == init + [last];
    }
  }

  lemma FieldOfEntry(f: Field, s: Section, es: seq<Entry>)
    ensures (exists e: Entry :: e in es && f == Of3(s, e)) <==>
            |f.sects| == 3 && f.section == s && f.sects[0] == "sf" && f.sects[1] == Component(s) && Entry(f.sects[2], f.kind) in es
  {
    if |f.sects| == 3 && f.section == s && f.sects[0] == "sf" && f.sects[1] == Component(s) && Entry(f.sects[2], f.kind) in es {
      var e := Entry(f.sects[2], f.kind);
      assert f.sects == ["sf", Component(s), e.name];
      assert f == Of3(s, e);
    }
  }

  lemma SectionFieldIs(f: Field, s: Section, netIP: Kind)
    requires s != SectNone && f.section == s
    ensures IsExported(f, netIP) <==> IsSectionField(f, netIP)
  {
  }

  /** The fields of a section that takes part in the walk are those of its entries. */
  lemma SectionFieldsAre(r: Rec, table: seq<Field>, netIP: Kind, s: Section, f: Field)
    requires IsTable(table, netIP) && s != SectNone && StatusOf(r, s) != Ignored
    ensures f in OfSection(Tagged(r, table), s) <==> exists e: Entry :: e in Entries(s, netIP) && f == Of3(s, e)
  {
    InSectionOf(Tagged(r, table), s, f);
    TaggedAreFields(r, table);
    FieldOfEntry(f, s, Entries(s, netIP));
    if f.section == s {
      SectionFieldIs(f, s, netIP);
    }
  }

  lemma {:induction false} RunOfSection(w: seq<Field>, f: Field)
    requires f in w
    ensures exists i :: 0 <= i < |Runs(w)| && Runs(w)[i].section == f.section
  {
    var init, last := w[..|w| - 1], w[|w| - 1];
    assert w == init + [last];
    if f == last {
      assert Runs(w)[|Runs(w)| - 1].section == last.section;
    } else {
      RunOfSection(init, f);
      var i :| 0 <= i < |Runs(init)| && Runs(init)[i].section == f.section;
      assert Runs(w) == Extend(Runs(init), last);
      ExtendSections(Runs(init), last, i);
    }
  }

  lemma {:induction false} RunIsSection(r: Rec, runs: seq<Run>, html: bool, i: nat)
    requires i < |runs| && StatusOf(r, runs[i].section) == Shown
    ensures SectionPiece(r, runs[i], html) in Sections(r, runs, html)
  {
    if i < |runs| - 1 {
      RunIsSection(r, runs[..|runs| - 1], html, i);
    }
  }

  /** The object of a shown section holds the fields of the section. */
  lemma SectionIsThere(r: Rec, table: seq<Field>, netIP: Kind, s: Section, html: bool) returns (p: Piece)
    requires IsTable(table, netIP) && s != SectNone && StatusOf(r, s) == Shown
    ensures p in Sections(r, Runs(Tagged(r, table)), html) && p.key == SectionKey(s)
    ensures p.value == ObjectValue(Attrs(r, OfSection(Tagged(r, table), s), html))
  {
    var w := Tagged(r, table);
    var f := Of3(s, Entries(s, netIP)[0]);
    SectionFieldsAre(r, table, netIP, s, f);
    InSectionOf(w, s, f);
    assert Entries(s, netIP)[0] in Entries(s, netIP);
    RunOfSection(w, f);
    var i :| 0 <= i < |Runs(w)| && Runs(w)[i].section == s;
    TableIsOrdered(table, netIP);
    TableHasNoTwins(table, netIP);
    SectionHoldsItsFields(r, table, html, i);
    RunIsSection(r, Runs(w), html, i);
    p := SectionPiece(r, Runs(w)[i], html);
  }

  lemma SectionMember(r: Rec, table: seq<Field>, netIP: Kind, s: Section, html: bool, m: Member)
    requires IsTable(table, netIP) && s != SectNone && StatusOf(r, s) == Shown
    ensures (exists f: Field :: f in OfSection(Tagged(r, table), s) && FieldIs(r, f, html, m))
            <==> exists e: Entry :: e in Entries(s, netIP) && FieldIs(r, Of3(s, e), html, m)
  {
    var fields, es := OfSection(Tagged(r, table), s), Entries(s, netIP);
    if exists f: Field :: f in fields && FieldIs(r, f, html, m) {
      var f: Field :| f in fields && FieldIs(r, f, html, m);
      SectionFieldsAre(r, table, netIP, s, f);
      var e: Entry :| e in es && f == Of3(s, e);
      assert FieldIs(r, Of3(s, e), html, m);
    }
    if exists e: Entry :: e in es && FieldIs(r, Of3(s, e), html, m) {
      var e: Entry :| e in es && FieldIs(r, Of3(s, e), html, m);
      SectionFieldsAre(r, table, netIP, s, Of3(s, e));
    }
  }

  lemma SectionObject(r: Rec, table: seq<Field>, netIP: Kind, s: Section, html: bool)
    requires IsTable(table, netIP) && HarmlessKind(netIP) && Encodable(r) && s != SectNone && StatusOf(r, s) == Shown
    requires Readable(Attrs(r, OfSection(Tagged(r, table), s), html))
    ensures IsObjectOf(Members(Attrs(r, OfSection(Tagged(r, table), s), html)), SectionMembers(r, s, netIP))
  {
    var fields := OfSection(Tagged(r, table), s);
    var expected := SectionMembers(r, s, netIP);
    SectionListed(r, s, netIP, html);
    forall m: Member ensures m in Members(Attrs(r, fields, html)) <==> m in expected {
      InAttrs(r, fields, html, m);
      SectionMember(r, table, netIP, s, html, m);
      ListedMembers(r, s, Entries(s, netIP), html, expected, m);
    }
    SectionKeysUnique(r, table, netIP, s, html);
  }

  lemma SectionKeysUnique(r: Rec, table: seq<Field>, netIP: Kind, s: Section, html: bool)
    requires IsTable(table, netIP) && Readable(Attrs(r, OfSection(Tagged(r, table), s), html))
    ensures UniqueKeys(Members(Attrs(r, OfSection(Tagged(r, table), s), html)))
  {
    TableIsOrdered(table, netIP);
    TableHasNoTwins(table, netIP);
    SectionKeysDistinct(r, table, s, html);
  }

  // ------------------------------------------------------------------
  // The root object.

  lemma PieceIsMember(ps: seq<Piece>, p: Piece, v: Json)
    requires Readable(ps) && p in ps && p.value == Some(v)
    ensures Member(p.key, v) in Members(ps)
  {
    var i :| 0 <= i < |ps| && ps[i] == p;
    assert Members(ps)[i] == Member(p.key, v);
  }

  /** The pieces of the root object. */
  function Root(r: Rec, version: string, table: seq<Field>, html: bool): seq<Piece>
  {
    Body(r, version, table, html) + Tail(r, html)
  }

  lemma InFive(a: seq<Piece>, b: seq<Piece>, c: seq<Piece>, d: seq<Piece>, e: seq<Piece>, p: Piece)
    ensures p in (a + b + c) + (d + e) <==> p in a || p in b || p in c || p in d || p in e
  {
  }

  lemma RootHas(r: Rec, version: string, table: seq<Field>, html: bool, p: Piece)
    ensures p in Root(r, version, table, html) <==>
            p == VersionPiece(version) || p in Attrs(r, Pairs(table), html) || p in Sections(r, Runs(Tagged(r, table)), html)
            || p in PoliciesMember(r, html) || p in TagsMember(r, html)
  {
    InFive([VersionPiece(version)], Attrs(r, Pairs(table), html), Sections(r, Runs(Tagged(r, table)), html),
           PoliciesMember(r, html), TagsMember(r, html), p);
  }

  lemma PairField(name: string, kind: Kind, netIP: Kind, table: seq<Field>)
    requires IsTable(table, netIP) && Entry(name, kind) in PAIRS
    ensures Field(["sf", name], SectNone, kind) in Pairs(table)
  {
    var f := Field(["sf", name], SectNone, kind);
    assert IsPair(f) && IsExported(f, netIP);
    PairsAreFields(table);
  }

  lemma AttrIsThere(r: Rec, fields: seq<Field>, f: Field, html: bool)
    requires f in fields
    ensures Attr(r, f, html) in Attrs(r, fields, html)
  {
    var i :| 0 <= i < |fields| && fields[i] == f;
    assert Attrs(r, fields, html)[i] == Attr(r, f, html);
  }

  lemma PairKeyIs(name: string, kind: Kind)
    requires PlusFree(name)
    ensures Field(["sf", name], SectNone, kind).Key() == name
  {
  }

  lemma PairIsThere(r: Rec, version: string, table: seq<Field>, netIP: Kind, html: bool, name: string, kind: Kind, m: Member)
    requires IsTable(table, netIP) && Readable(Root(r, version, table, html))
    requires Entry(name, kind) in PAIRS && PlusFree(name)
    requires m.key == name && FieldValue(r, Field(["sf", name], SectNone, kind), html).value == Some(m.value)
    ensures HasValue(Members(Root(r, version, table, html)), m.key, m.value)
  {
    var f := Field(["sf", name], SectNone, kind);
    PairField(name, kind, netIP, table);
    PairKeyIs(name, kind);
    AttrIsThere(r, Pairs(table), f, html);
    RootHas(r, version, table, html, Attr(r, f, html));
    PieceIsMember(Root(r, version, table, html), Attr(r, f, html), m.value);
  }

  lemma PairsListed()
    ensures PAIRS[0] == Entry("ts", IntKind) && PAIRS[1] == Entry("ret", IntKind) && PAIRS[2] == Entry("type", StrKind)
    ensures PAIRS[3] == Entry("endts", IntKind) && PAIRS[4] == Entry("opflags", OpFlagsKind)
  {
  }

  lemma TimesThere(r: Rec, version: string, table: seq<Field>, netIP: Kind, html: bool)
    requires IsTable(table, netIP) && Readable(Root(r, version, table, html))
    ensures var ms := Members(Root(r, version, table, html));
            HasValue(ms, "ret", Number(r.ints(Field(["sf", "ret"], SectNone, IntKind))))
            && HasValue(ms, "ts", Number(r.ints(Field(["sf", "ts"], SectNone, IntKind))))
            && HasValue(ms, "endts", Number(r.ints(Field(["sf", "endts"], SectNone, IntKind))))
  {
    PairsListed();
    assert PAIRS[0] in PAIRS && PAIRS[1] in PAIRS && PAIRS[3] in PAIRS;
    PairIsThere(r, version, table, netIP, html, "ret", IntKind, Member("ret", Number(r.ints(Field(["sf", "ret"], SectNone, IntKind)))));
    PairIsThere(r, version, table, netIP, html, "ts", IntKind, Member("ts", Number(r.ints(Field(["sf", "ts"], SectNone, IntKind)))));
    PairIsThere(r, version, table, netIP, html, "endts", IntKind, Member("endts", Number(r.ints(Field(["sf", "endts"], SectNone, IntKind)))));
  }

  lemma TypeThere(r: Rec, version: string, table: seq<Field>, netIP: Kind, html: bool)
    requires IsTable(table, netIP) && Readable(Root(r, version, table, html))
    ensures HasValue(Members(Root(r, version, table, html)), "type", JString(TrimBoundingQuotes(r.strs(Field(["sf", "type"], SectNone, StrKind)))))
  {
    PairsListed();
    assert PAIRS[2] in PAIRS;
    PairIsThere(r, version, table, netIP, html, "type", StrKind,
                Member("type", JString(TrimBoundingQuotes(r.strs(Field(["sf", "type"], SectNone, StrKind))))));
  }

  lemma OpFlagsThere(r: Rec, version: string, table: seq<Field>, netIP: Kind, html: bool)
    requires IsTable(table, netIP) && Readable(Root(r, version, table, html))
    ensures HasValue(Members(Root(r, version, table, html)), "opflags", JArray(Texts(r.flags(Field(["sf", "opflags"], SectNone, OpFlagsKind)))))
  {
    PairsListed();
    assert PAIRS[4] in PAIRS;
    var f := Field(["sf", "opflags"], SectNone, OpFlagsKind);
    SameList(Strings(r.flags(f)), Texts(r.flags(f)));
    PairIsThere(r, version, table, netIP, html, "opflags", OpFlagsKind, Member("opflags", JArray(Texts(r.flags(f)))));
  }

  lemma VersionThere(r: Rec, version: string, table: seq<Field>, html: bool)
    requires IsNumber(version) && Readable(Root(r, version, table, html))
    ensures HasValue(Members(Root(r, version, table, html)), "version", JNumber(version))
  {
    RootHas(r, version, table, html, VersionPiece(version));
    PieceIsMember(Root(r, version, table, html), VersionPiece(version), JNumber(version));
  }

  lemma ShownSection(r: Rec, version: string, table: seq<Field>, netIP: Kind, s: Section, html: bool)
    requires IsTable(table, netIP) && HarmlessKind(netIP) && Encodable(r) && Readable(Root(r, version, table, html))
    requires s != SectNone && StatusOf(r, s) == Shown
    ensures HasObject(Members(Root(r, version, table, html)), SectionKey(s), SectionMembers(r, s, netIP))
  {
    var attrs := Attrs(r, OfSection(Tagged(r, table), s), html);
    var p := SectionIsThere(r, table, netIP, s, html);
    RootHas(r, version, table, html, p);
    ReadablePiece(Root(r, version, table, html), p);
    SectionObject(r, table, netIP, s, html);
    PieceIsMember(Root(r, version, table, html), p, JObject(Members(attrs)));
  }

  lemma ReadablePiece(ps: seq<Piece>, p: Piece)
    requires Readable(ps) && p in ps
    ensures p.value.Some?
  {
  }

  ghost predicate NoPieceKey(ps: seq<Piece>, key: string)
  {
    forall p: Piece :: p in ps ==> p.key != key
  }

  lemma NoPieceNoMember(ps: seq<Piece>, key: string)
    requires Readable(ps) && NoPieceKey(ps, key)
    ensures NoKey(Members(ps), key)
  {
    forall m: Member | m in Members(ps) ensures m.key != key {
      InMembers(ps, m);
      var i :| 0 <= i < |ps| && ps[i].key == m.key && ps[i].value == Some(m.value);
      assert ps[i] in ps;
    }
  }

  lemma OtherKind(ps: seq<Piece>, k: KeyKind, key: string, l: KeyKind)
    requires KeysOf(ps, k) && IsKeyOf(key, l) && k != l
    ensures NoPieceKey(ps, key)
  {
    forall p: Piece | p in ps ensures p.key != key {
      if p.key == key {
        KeyKinds(key, k, l);
      }
    }
  }

  lemma NoKeyInRoot(r: Rec, version: string, table: seq<Field>, html: bool, key: string)
    requires Readable(Root(r, version, table, html))
    requires key != "version" && NoPieceKey(Attrs(r, Pairs(table), html), key)
    requires NoPieceKey(Sections(r, Runs(Tagged(r, table)), html), key)
    requires NoPieceKey(PoliciesMember(r, html), key) && NoPieceKey(TagsMember(r, html), key)
    ensures NoKey(Members(Root(r, version, table, html)), key)
  {
    forall p: Piece | p in Root(r, version, table, html) ensures p.key != key {
      RootHas(r, version, table, html, p);
    }
    NoPieceNoMember(Root(r, version, table, html), key);
  }

  /** The kinds of keys of the parts. */
  lemma PartKinds(r: Rec, version: string, table: seq<Field>, netIP: Kind, html: bool)
    requires IsTable(table, netIP)
    ensures KeysOf([VersionPiece(version)], VersionKey) && KeysOf(Attrs(r, Pairs(table), html), PairKey)
    ensures KeysOf(Sections(r, Runs(Tagged(r, table)), html), SectionName)
    ensures KeysOf(PoliciesMember(r, html), PoliciesKey) && KeysOf(TagsMember(r, html), TagsKey)
  {
    PairKeysDistinct(r, table, netIP, html);
    SectionKeysOf(r, Runs(Tagged(r, table)), html);
    TailKeys(r, html);
  }

  lemma NoSectionKey(r: Rec, runs: seq<Run>, s: Section, html: bool)
    requires StatusOf(r, s) != Shown
    ensures NoPieceKey(Sections(r, runs, html), SectionKey(s))
  {
    forall q: Piece | q in Sections(r, runs, html) ensures q.key != SectionKey(s) {
      SectionsAreRuns(r, runs, html, q);
      var i :| 0 <= i < |runs| && q == SectionPiece(r, runs[i], html) && StatusOf(r, runs[i].section) == Shown;
      if q.key == SectionKey(s) {
        SectionKeyInjective(runs[i].section, s);
      }
    }
  }

  lemma HiddenSection(r: Rec, version: string, table: seq<Field>, netIP: Kind, s: Section, html: bool)
    requires IsTable(table, netIP) && Readable(Root(r, version, table, html)) && s != SectNone && StatusOf(r, s) != Shown
    ensures NoKey(Members(Root(r, version, table, html)), SectionKey(s))
  {
    assert IsKeyOf(SectionKey(s), SectionName);
    SectionCode(s);
    PartKinds(r, version, table, netIP, html);
    OtherKind(Attrs(r, Pairs(table), html), KeyKind.PairKey, SectionKey(s), SectionName);
    OtherKind(PoliciesMember(r, html), PoliciesKey, SectionKey(s), SectionName);
    OtherKind(TagsMember(r, html), TagsKey, SectionKey(s), SectionName);
    NoSectionKey(r, Runs(Tagged(r, table)), s, html);
    NoKeyInRoot(r, version, table, html, SectionKey(s));
  }

  lemma SectionShownOrNot(r: Rec, version: string, table: seq<Field>, netIP: Kind, s: Section, html: bool)
    requires IsTable(table, netIP) && HarmlessKind(netIP) && Encodable(r) && Readable(Root(r, version, table, html)) && s != SectNone
    ensures HoldsSection(Members(Root(r, version, table, html)), r, s, netIP)
  {
    if StatusOf(r, s) == Shown {
      ShownSection(r, version, table, netIP, s, html);
    } else {
      HiddenSection(r, version, table, netIP, s, html);
    }
  }

  /** A section as the encoder's conditions have it. */
  ghost predicate HoldsSection(ms: seq<Member>, r: Rec, s: Section, netIP: Kind)
    requires HarmlessKind(netIP)
  {
    HasSection(ms, SectionKey(s), StatusOf(r, s) == Shown, SectionMembers(r, s, netIP))
  }

  lemma ProcessNamed(ms: seq<Member>, r: Rec, netIP: Kind)
    requires HarmlessKind(netIP) && HoldsSection(ms, r, SectProc, netIP)
    ensures HasSection(ms, "proc", r.rtype != K8sEvent, ProcMembers(r, ChainOf(r)))
  {
  }

  lemma ParentNamed(ms: seq<Member>, r: Rec, netIP: Kind)
    requires HarmlessKind(netIP) && HoldsSection(ms, r, SectPProc, netIP)
    ensures HasSection(ms, "pproc", r.rtype != K8sEvent && r.parentPID != 0, PProcMembers(r, ChainOf(r)))
  {
  }

  lemma K8sNamed(ms: seq<Member>, r: Rec, netIP: Kind)
    requires HarmlessKind(netIP) && HoldsSection(ms, r, SectK8sEvt, netIP)
    ensures HasSection(ms, "k8s", r.rtype == K8sEvent, K8sMembers(r))
  {
  }

  lemma NetNamed(ms: seq<Member>, r: Rec, netIP: Kind)
    requires HarmlessKind(netIP) && HoldsSection(ms, r, SectNet, netIP)
    ensures HasSection(ms, "net", r.rtype == NetFlow, NetMembers(r, netIP))
  {
  }

  lemma FileNamed(ms: seq<Member>, r: Rec, netIP: Kind)
    requires HarmlessKind(netIP) && HoldsSection(ms, r, SectFile, netIP)
    ensures HasSection(ms, "file", r.rtype == FileFlow || r.rtype == FileEvent, FileMembers(r))
  {
  }

  lemma FlowNamed(ms: seq<Member>, r: Rec, netIP: Kind)
    requires HarmlessKind(netIP) && HoldsSection(ms, r, SectFlow, netIP)
    ensures HasSection(ms, "flow", r.rtype == FileFlow || r.rtype == NetFlow, FlowMembers(r))
  {
  }

  lemma ContainerNamed(ms: seq<Member>, r: Rec, netIP: Kind)
    requires HarmlessKind(netIP) && HoldsSection(ms, r, SectCont, netIP)
    ensures HasSection(ms, "container", r.rtype != K8sEvent && r.contID != "", ContMembers(r))
  {
  }

  lemma PodNamed(ms: seq<Member>, r: Rec, netIP: Kind)
    requires HarmlessKind(netIP) && HoldsSection(ms, r, SectPod, netIP)
    ensures HasSection(ms, "pod", r.rtype != K8sEvent && r.podID != "", PodMembers(r))
  {
  }

  lemma NodeNamed(ms: seq<Member>, r: Rec, netIP: Kind)
    requires HarmlessKind(netIP) && HoldsSection(ms, r, SectNode, netIP)
    ensures HasObject(ms, "node", NodeMembers(r))
  {
  }

  lemma MetaNamed(ms: seq<Member>, r: Rec, netIP: Kind)
    requires HarmlessKind(netIP) && HoldsSection(ms, r, SectMeta, netIP)
    ensures HasObject(ms, "meta", MetaMembers(r))
  {
  }

  lemma SectionsNamed(ms: seq<Member>, r: Rec, netIP: Kind)
    requires HarmlessKind(netIP) && forall s: Section :: s != SectNone ==> HoldsSection(ms, r, s, netIP)
    ensures HasSections(ms, r, netIP) && HasObject(ms, "node", NodeMembers(r)) && HasObject(ms, "meta", MetaMembers(r))
  {
    ProcessNamed(ms, r, netIP);
    ParentNamed(ms, r, netIP);
    K8sNamed(ms, r, netIP);
    NetNamed(ms, r, netIP);
    FileNamed(ms, r, netIP);
    FlowNamed(ms, r, netIP);
    ContainerNamed(ms, r, netIP);
    PodNamed(ms, r, netIP);
    NodeNamed(ms, r, netIP);
    MetaNamed(ms, r, netIP);
  }

  lemma SectionsThere(r: Rec, version: string, table: seq<Field>, netIP: Kind, html: bool)
    requires IsTable(table, netIP) && HarmlessKind(netIP) && Encodable(r) && Readable(Root(r, version, table, html))
    ensures forall s: Section :: s != SectNone ==> HoldsSection(Members(Root(r, version, table, html)), r, s, netIP)
  {
    forall s: Section | s != SectNone ensures HoldsSection(Members(Root(r, version, table, html)), r, s, netIP) {
      SectionShownOrNot(r, version, table, netIP, s, html);
    }
  }

  // ------------------------------------------------------------------
  // Policies and tags.

  lemma {:induction false} TagsNext(tags: seq<C.Tag>, t: C.Tag)
    ensures TagTexts(tags + [t]) == TagTexts(tags) + match t case OneTag(x) => [x] case TagList(ts) => ts
  {
    if tags == [] {
      assert [t][1..] == [];
    } else {
      TagsNext(tags[1..], t);
      assert (tags + [t])[1..] == tags[1..] + [t];
    }
  }

  lemma {:induction false} TagsAre(tags: seq<C.Tag>)
    ensures TagsOf(tags) == TagTexts(tags)
  {
    if tags != [] {
      var init, t := tags[..|tags| - 1], tags[|tags| - 1];
      TagsAre(init);
      TagsNext(init, t);
      assert tags == init + [t];
    }
  }

  lemma ThreeParts(a: seq<string>, b: seq<string>, c: seq<string>)
    ensures a + (b + c) == a + b + c
  {
  }

  lemma {:induction false} RulesNext(rules: seq<C.RuleInfo>, info: C.RuleInfo)
    ensures TagsOfRules(rules + [info]) == TagsOfRules(rules) + TagTexts(info.tags)
  {
    if rules == [] {
      assert [info][1..] == [];
      assert rules + [info] == [info];
    } else {
      RulesNext(rules[1..], info);
      assert (rules + [info])[1..] == rules[1..] + [info] && (rules + [info])[0] == rules[0];
      ThreeParts(TagTexts(rules[0].tags), TagsOfRules(rules[1..]), TagTexts(info.tags));
    }
  }

  lemma {:induction false} RuleTagsAre(rules: seq<C.RuleInfo>)
    ensures RuleTags(rules) == TagsOfRules(rules)
  {
    if rules != [] {
      var init, info := rules[..|rules| - 1], rules[|rules| - 1];
      RuleTagsAre(init);
      RulesNext(init, info);
      TagsAre(info.tags);
      assert rules == init + [info];
    }
  }

  lemma PolicyListIs(rules: seq<C.RuleInfo>)
    ensures JArray(Policies(rules)) == JArray(PolicyList(rules))
  {
    SameList(Policies(rules), PolicyList(rules));
  }

  lemma PoliciesThere(r: Rec, version: string, table: seq<Field>, netIP: Kind, html: bool)
    requires IsTable(table, netIP) && Readable(Root(r, version, table, html))
    ensures var ms := Members(Root(r, version, table, html));
            if r.rules == [] then NoKey(ms, "policies") else HasValue(ms, "policies", JArray(PolicyList(r.rules)))
  {
    PolicyListIs(r.rules);
    if r.rules == [] {
      PartKinds(r, version, table, netIP, html);
      OtherKind(Attrs(r, Pairs(table), html), KeyKind.PairKey, "policies", PoliciesKey);
      OtherKind(Sections(r, Runs(Tagged(r, table)), html), SectionName, "policies", PoliciesKey);
      OtherKind(TagsMember(r, html), TagsKey, "policies", PoliciesKey);
      NoKeyInRoot(r, version, table, html, "policies");
    } else {
      var p := PoliciesMember(r, html)[0];
      RootHas(r, version, table, html, p);
      PieceIsMember(Root(r, version, table, html), p, JArray(PolicyList(r.rules)));
    }
  }

  lemma TagsThere(r: Rec, version: string, table: seq<Field>, netIP: Kind, html: bool)
    requires IsTable(table, netIP) && Readable(Root(r, version, table, html))
    ensures var ms, tags := Members(Root(r, version, table, html)), r.tags + TagsOfRules(r.rules);
            if tags == [] then NoKey(ms, "tags") else HasValue(ms, "tags", JArray(Texts(tags)))
  {
    var tags := r.tags + TagsOfRules(r.rules);
    RuleTagsAre(r.rules);
    SameList(Strings(tags), Texts(tags));
    if tags == [] {
      PartKinds(r, version, table, netIP, html);
      OtherKind(Attrs(r, Pairs(table), html), KeyKind.PairKey, "tags", TagsKey);
      OtherKind(Sections(r, Runs(Tagged(r, table)), html), SectionName, "tags", TagsKey);
      OtherKind(PoliciesMember(r, html), PoliciesKey, "tags", TagsKey);
      NoKeyInRoot(r, version, table, html, "tags");
    } else {
      var t := TagsMember(r, html)[0];
      RootHas(r, version, table, html, t);
      PieceIsMember(Root(r, version, table, html), t, JArray(Texts(tags)));
    }
  }

  // ------------------------------------------------------------------
  // The theorem.

  lemma KnownKey(key: string, k: KeyKind)
    requires IsKeyOf(key, k)
    ensures IsRootKey(key)
  {
  }

  ghost predicate KnownKeys(ps: seq<Piece>)
  {
    forall p: Piece :: p in ps ==> IsRootKey(p.key)
  }

  lemma KindIsKnown(ps: seq<Piece>, k: KeyKind)
    requires KeysOf(ps, k)
    ensures KnownKeys(ps)
  {
    forall p: Piece | p in ps ensures IsRootKey(p.key) {
      KnownKey(p.key, k);
    }
  }

  lemma RootKeysKnown(r: Rec, version: string, table: seq<Field>, netIP: Kind, html: bool)
    requires IsTable(table, netIP) && Readable(Root(r, version, table, html))
    ensures var ms := Members(Root(r, version, table, html)); UniqueKeys(ms) && forall m: Member :: m in ms ==> IsRootKey(m.key)
  {
    PartKinds(r, version, table, netIP, html);
    KindIsKnown(Attrs(r, Pairs(table), html), KeyKind.PairKey);
    KindIsKnown(Sections(r, Runs(Tagged(r, table)), html), SectionName);
    KindIsKnown(PoliciesMember(r, html), PoliciesKey);
    KindIsKnown(TagsMember(r, html), TagsKey);
    RootKeysDistinct(r, version, table, netIP, html);
    forall m: Member | m in Members(Root(r, version, table, html)) ensures IsRootKey(m.key) {
      InMembers(Root(r, version, table, html), m);
      var i :| 0 <= i < |Root(r, version, table, html)| && Root(r, version, table, html)[i].key == m.key
               && Root(r, version, table, html)[i].value == Some(m.value);
      RootHas(r, version, table, html, Root(r, version, table, html)[i]);
    }
  }

  /**
   The value of every record that has one: an object with exactly these members, each once, at the
   root and in every section.
   */
  lemma TreeHolds(r: Rec, version: string, table: seq<Field>, netIP: Kind, html: bool)
    requires IsTable(table, netIP) && HarmlessKind(netIP) && PlainVersion(version) && IsNumber(version) && Encodable(r)
    ensures var tree := Tree(r, version, table, html);
            tree.Some? && tree.value.JObject? && AreMembersOf(tree.value.members, r, version, netIP)
  {
    EncoderIsFaithful(r, version, table, netIP, html);
    assert Readable(Root(r, version, table, html));
    RootKeysKnown(r, version, table, netIP, html);
    VersionThere(r, version, table, html);
    TypeThere(r, version, table, netIP, html);
    OpFlagsThere(r, version, table, netIP, html);
    TimesThere(r, version, table, netIP, html);
    SectionsThere(r, version, table, netIP, html);
    SectionsNamed(Members(Root(r, version, table, html)), r, netIP);
    PoliciesThere(r, version, table, netIP, html);
    TagsThere(r, version, table, netIP, html);
  }

  /** What `Encode` gives for each record, as a reader of JSON sees it. */
  method EncodeExported(enc: E.JSONEncoder, recs: seq<Rec>, ghost netIP: Kind) returns (data: seq<string>)
    requires IsTable(enc.fields, netIP) && HarmlessKind(netIP) && PlainVersion(enc.schemaVersion) && enc.writer.buffer == ""
    modifies enc, enc.writer
    ensures |data| == |recs| && enc.writer.buffer == ""
    ensures forall i :: 0 <= i < |recs| ==> ReadsAs(data[i], recs[i], enc.schemaVersion, netIP)
  {
    TableIsOrdered(enc.fields, netIP);
    data := enc.Encode(recs);
    forall i | 0 <= i < |recs| ensures ReadsAs(data[i], recs[i], enc.schemaVersion, netIP) {
      TextReads(recs[i], enc.schemaVersion, enc.fields, netIP, enc.Html());
    }
  }

  /**
   The text is one JSON object, up to the replacement of malformed UTF-8, with exactly
   the members of the record, if that is `Encodable` and the version is a number, and no
   JSON at all otherwise.
   */
  ghost predicate ReadsAs(text: string, r: Rec, version: string, netIP: Kind)
    requires HarmlessKind(netIP)
  {
    if IsNumber(version) && Encodable(r) then
      exists ms :: AreMembersOf(ms, r, version, netIP) && ParseText(text) == Some(Clean(JObject(ms)))
    else ParseText(text) == None
  }

  lemma TextReads(r: Rec, version: string, table: seq<Field>, netIP: Kind, html: bool)
    requires IsTable(table, netIP) && HarmlessKind(netIP) && PlainVersion(version)
    ensures ReadsAs(EncodedText(r, version, table, html), r, version, netIP)
  {
    EncoderIsFaithful(r, version, table, netIP, html);
    if IsNumber(version) && Encodable(r) {
      TreeHolds(r, version, table, netIP, html);
      assert AreMembersOf(Tree(r, version, table, html).value.members, r, version, netIP);
    }
  }

  // ------------------------------------------------------------------
  // The texts of addresses and of names.

  predicate IsOctet(n: int)
  {
    0 <= n < 0x100
  }

  lemma NextOctet(a: int, rest: int)
    requires IsOctet(a)
    ensures (a + rest * 0x100) % 0x100 == a && (a + rest * 0x100) / 0x100 == rest
  {
  }

  lemma OctetShifts(ip: int)
    ensures ip / 0x1_0000 == ip / 0x100 / 0x100 && ip / 0x100_0000 == ip / 0x100 / 0x100 / 0x100
  {
  }

  /** The four lowest octets, lowest first. */
  lemma OctetsInOrder(a: int, b: int, c: int, d: int, above: int)
    requires IsOctet(a) && IsOctet(b) && IsOctet(c) && IsOctet(d)
    ensures IPText(a + (b + (c + (d + above * 0x100) * 0x100) * 0x100) * 0x100)
            == FormatInt(a) + "." + FormatInt(b) + "." + FormatInt(c) + "." + FormatInt(d)
  {
    NextOctet(a, b + (c + (d + above * 0x100) * 0x100) * 0x100);
    NextOctet(b, c + (d + above * 0x100) * 0x100);
    NextOctet(c, d + above * 0x100);
    NextOctet(d, above);
    OctetShifts(a + (b + (c + (d + above * 0x100) * 0x100) * 0x100) * 0x100);
  }

  function Slashes(k: nat): string
  {
    if k == 0 then "" else Slashes(k - 1) + "/"
  }

  predicate IsDirectory(dir: string)
  {
    dir != "" ==> dir[|dir| - 1] == '/'
  }

  lemma {:induction false} StripsSlashes(path: string, k: nat)
    requires path != "" ==> path[|path| - 1] != '/'
    ensures StripSlashes(path + Slashes(k)) == path
  {
    if k == 0 {
      assert path + "" == path;
    } else {
      StripsSlashes(path, k - 1);
      var longer := path + Slashes(k);
      assert longer[..|longer| - 1] == path + Slashes(k - 1);
    }
  }

  lemma {:induction false} AfterDirectory(dir: string, name: string)
    requires IsDirectory(dir) && '/' !in name
    ensures AfterLastSlash(dir + name) == name
  {
    if name == "" {
      assert dir + name == dir;
    } else {
      var last := name[|name| - 1];
      AfterDirectory(dir, name[..|name| - 1]);
      assert (dir + name)[..|dir + name| - 1] == dir + name[..|name| - 1];
      assert last in name && name == name[..|name| - 1] + [last];
    }
  }

  /** The last element of a path, whatever slashes follow; every path with an element is of this form. */
  lemma BaseOfPath(dir: string, name: string, k: nat)
    requires IsDirectory(dir) && name != "" && '/' !in name
    ensures Base(dir + name + Slashes(k)) == name
  {
    assert name[|name| - 1] in name;
    StripsSlashes(dir + name, k);
    AfterDirectory(dir, name);
  }

  /** Of nothing but slashes, one is left. */
  lemma BaseOfSlashes(k: nat)
    ensures Base(Slashes(k)) == if k == 0 then "." else "/"
  {
    StripsSlashes("", k);
    assert "" + Slashes(k) == Slashes(k);
  }
}
