/** The exported table itself: it exists, and its names suit the encoder. */
module ExportedTable {
  import opened Text
  import opened JsonString
  import opened Json
  import opened JsonPieces
  import opened FieldTable
  import opened JsonFields
  import opened JsonRecord
  import opened JsonTree
  import E = JsonEncoder

  /** The last part of a field's name, and how its value is written. */
  datatype Entry = Entry(name: string, kind: Kind)

  function Of3(s: Section, e: Entry): Field
  {
    Field(["sf", Component(s), e.name], s, e.kind)
  }

  const PAIRS: seq<Entry> :=
    [Entry("ts", IntKind), Entry("ret", IntKind), Entry("type", StrKind), Entry("endts", IntKind),
     Entry("opflags", OpFlagsKind)]

  const HIDDEN: seq<Entry> :=
    [Entry("hostip", StrKind), Entry("services", StrKind), Entry("internalip", StrKind)]

  /**
   The fields of a section, by length of their names and then by first and last letter,
   so that none can be there twice. Whether `sf.net.ip` is written as a pair of addresses or as
   one string depends on two indices of the flat record being the same number.
   */
  function Entries(s: Section, netIP: Kind): (es: seq<Entry>)
  {
    match s
    case SectNone => []
    case SectProc =>
      [Entry("exe", StrKind), Entry("gid", IntKind), Entry("oid", StrKind), Entry("pid", IntKind),
        Entry("tid", IntKind), Entry("tty", BoolKind), Entry("uid", IntKind), Entry("apid", PtreeKind(ProcAPID)),
        Entry("aexe", PtreeKind(ProcAExe)), Entry("args", StrKind), Entry("name", StrKind), Entry("user", StrKind),
        Entry("aname", PtreeKind(ProcAName)), Entry("entry", BoolKind), Entry("group", StrKind),
        Entry("cmdline", StrKind), Entry("acmdline", PtreeKind(ProcACmdLine)), Entry("createts", IntKind)]
    case SectPProc =>
      [Entry("exe", PtreeKind(PProcExe)), Entry("gid", PtreeKind(PProcGID)), Entry("oid", StrKind),
        Entry("pid", IntKind), Entry("tty", PtreeKind(PProcTTY)), Entry("uid", PtreeKind(PProcUID)),
        Entry("args", PtreeKind(PProcArgs)), Entry("name", PtreeKind(PProcName)),
        Entry("user", PtreeKind(PProcUser)), Entry("entry", PtreeKind(PProcEntry)),
        Entry("group", PtreeKind(PProcGroup)), Entry("cmdline", PtreeKind(PProcCmdLine)), Entry("createts", IntKind)]
    case SectFile =>
      [Entry("fd", IntKind), Entry("oid", StrKind), Entry("name", StrKind), Entry("path", StrKind),
        Entry("type", StrKind), Entry("newoid", StrKind), Entry("newname", StrKind), Entry("newpath", StrKind),
        Entry("symlink", StrKind), Entry("directory", StrKind), Entry("openflags", OpenFlagsKind),
        Entry("newsymlink", StrKind), Entry("is_open_read", BoolKind), Entry("newdirectory", StrKind),
        Entry("is_open_write", BoolKind)]
    case SectNet =>
      [Entry("ip", netIP), Entry("dip", StrKind), Entry("sip", StrKind), Entry("port", PortsKind),
        Entry("dport", IntKind), Entry("proto", IntKind), Entry("sport", IntKind)]
    case SectFlow =>
      [Entry("rops", IntKind), Entry("wops", IntKind), Entry("rbytes", IntKind), Entry("wbytes", IntKind)]
    case SectCont =>
      [Entry("id", StrKind), Entry("name", StrKind), Entry("type", StrKind), Entry("image", StrKind),
        Entry("imageid", StrKind), Entry("privileged", IntKind)]
    case SectPod =>
      [Entry("id", StrKind), Entry("ts", IntKind), Entry("name", StrKind), Entry("hostip+", IPArrayKind),
        Entry("nodename", StrKind), Entry("namespace", StrKind), Entry("services+", ServicesKind),
        Entry("restartcnt", IntKind), Entry("internalip+", IPArrayKind)]
    case SectK8sEvt => [Entry("kind", StrKind), Entry("action", StrKind), Entry("message", StrKind)]
    case SectNode => [Entry("id", StrKind), Entry("ip", StrKind)]
    case SectMeta => [Entry("schema", IntKind), Entry("tracename", StrKind)]
  }

  predicate IsPair(f: Field)
  {
    f.section == SectNone && |f.sects| == 2 && f.sects[0] == "sf" && Entry(f.sects[1], f.kind) in PAIRS
  }

  predicate IsHidden(f: Field)
  {
    f.section == SectNone && |f.sects| == 3 && f.sects[0] == "sf" && f.sects[1] == "pod" && Entry(f.sects[2], f.kind) in HIDDEN
  }

  predicate IsSectionField(f: Field, netIP: Kind)
  {
    |f.sects| == 3 && f.sects[0] == "sf" && f.sects[1] == Component(f.section) && Entry(f.sects[2], f.kind) in Entries(f.section, netIP)
  }

  predicate IsExported(f: Field, netIP: Kind)
  {
    IsPair(f) || IsHidden(f) || IsSectionField(f, netIP)
  }

  /** What sorting the exported mappers gives, in whatever order they are enumerated. */
  ghost predicate IsTable(table: seq<Field>, netIP: Kind)
  {
    Sorted(table) && (forall f: Field :: f in table <==> IsExported(f, netIP))
  }

  // ------------------------------------------------------------------
  // The names.

  predicate NameChar(c: char)
  {
    'a' <= c <= 'z' || c == '_' || c == '+'
  }

  predicate GoodName(s: string)
  {
    forall i :: 0 <= i < |s| ==> NameChar(s[i])
  }

  ghost predicate GoodNames(es: seq<Entry>)
  {
    forall i :: 0 <= i < |es| ==> GoodName(es[i].name)
  }

  lemma PairsGood()
    ensures GoodNames(PAIRS)
  {
  }

  lemma HiddenGood()
    ensures GoodNames(HIDDEN)
  {
  }

  lemma FirstProcsGood(netIP: Kind)
    ensures forall i :: 0 <= i < 9 ==> GoodName(Entries(SectProc, netIP)[i].name)
  {
  }

  lemma LastProcsGood(netIP: Kind)
    ensures forall i :: 9 <= i < 18 ==> GoodName(Entries(SectProc, netIP)[i].name)
  {
  }

  lemma ProcGood(netIP: Kind)
    ensures GoodNames(Entries(SectProc, netIP))
  {
    FirstProcsGood(netIP);
    LastProcsGood(netIP);
  }

  lemma PProcGood(netIP: Kind)
    ensures GoodNames(Entries(SectPProc, netIP))
  {
  }

  lemma FirstFilesGood(netIP: Kind)
    ensures forall i :: 0 <= i < 8 ==> GoodName(Entries(SectFile, netIP)[i].name)
  {
  }

  lemma LastFilesGood(netIP: Kind)
    ensures forall i :: 8 <= i < 15 ==> GoodName(Entries(SectFile, netIP)[i].name)
  {
  }

  lemma FileGood(netIP: Kind)
    ensures GoodNames(Entries(SectFile, netIP))
  {
    FirstFilesGood(netIP);
    LastFilesGood(netIP);
  }

  lemma NetGood(netIP: Kind)
    ensures GoodNames(Entries(SectNet, netIP))
  {
  }

  lemma FlowGood(netIP: Kind)
    ensures GoodNames(Entries(SectFlow, netIP))
  {
  }

  lemma ContGood(netIP: Kind)
    ensures GoodNames(Entries(SectCont, netIP))
  {
  }

  lemma FirstPodsGood(netIP: Kind)
    ensures forall i :: 0 <= i < 5 ==> GoodName(Entries(SectPod, netIP)[i].name)
  {
  }

  lemma LastPodsGood(netIP: Kind)
    ensures forall i :: 5 <= i < 9 ==> GoodName(Entries(SectPod, netIP)[i].name)
  {
  }

  lemma PodGood(netIP: Kind)
    ensures GoodNames(Entries(SectPod, netIP))
  {
    FirstPodsGood(netIP);
    LastPodsGood(netIP);
  }

  lemma EntriesGood(s: Section, netIP: Kind)
    ensures GoodNames(Entries(s, netIP))
  {
    match s
    case SectProc => ProcGood(netIP);
    case SectPProc => PProcGood(netIP);
    case SectFile => FileGood(netIP);
    case SectNet => NetGood(netIP);
    case SectFlow => FlowGood(netIP);
    case SectCont => ContGood(netIP);
    case SectPod => PodGood(netIP);
    case _ =>
  }

  lemma GoodNameFacts(name: string)
    requires GoodName(name)
    ensures '.' !in name && forall c: char :: c in name ==> IsPlain(c, true)
  {
  }

  lemma GoodEntry(es: seq<Entry>, e: Entry)
    requires GoodNames(es) && e in es
    ensures '.' !in e.name && forall c: char :: c in e.name ==> IsPlain(c, true)
  {
    GoodNameFacts(e.name);
  }

  /** The last part of an exported field is free of dots and of anything that needs escaping. */
  lemma ExportedName(f: Field, netIP: Kind)
    requires IsExported(f, netIP)
    ensures f.sects != [] && '.' !in LastPart(f) && forall c: char :: c in LastPart(f) ==> IsPlain(c, true)
  {
    if IsPair(f) {
      PairsGood();
      GoodEntry(PAIRS, Entry(LastPart(f), f.kind));
    } else if IsHidden(f) {
      HiddenGood();
      GoodEntry(HIDDEN, Entry(LastPart(f), f.kind));
    } else {
      EntriesGood(f.section, netIP);
      GoodEntry(Entries(f.section, netIP), Entry(LastPart(f), f.kind));
    }
  }

  /** The first parts are `sf` and the component of the section. */
  lemma ExportedStart(f: Field, netIP: Kind)
    requires IsExported(f, netIP)
    ensures 2 <= |f.sects| <= 3 && f.sects[0] == "sf" && (|f.sects| == 2 ==> f.section == SectNone)
    ensures |f.sects| == 3 ==> '.' !in f.sects[1] && (f.section != SectNone ==> f.sects[1] == Component(f.section))
  {
  }

  lemma ExportedIsWellNamed(f: Field, netIP: Kind)
    requires IsExported(f, netIP)
    ensures WellNamed(f) && forall c: char :: c in f.Key() ==> IsPlain(c, true)
  {
    ExportedName(f, netIP);
    ExportedStart(f, netIP);
    KeyOfLast(f);
    assert '.' !in "sf";
  }

  lemma KeyOfLast(f: Field)
    requires f.sects != []
    ensures forall c: char :: c in f.Key() ==> c in LastPart(f)
  {
  }

  lemma TableIsOrdered(table: seq<Field>, netIP: Kind)
    requires IsTable(table, netIP)
    ensures Ordered(table) && E.PlainKeys(table)
  {
    forall i | 0 <= i < |table|
      ensures WellNamed(table[i]) && forall c: char :: c in table[i].Key() ==> IsPlain(c, true)
    {
      assert table[i] in table;
      ExportedIsWellNamed(table[i], netIP);
    }
  }

  // ------------------------------------------------------------------
  // There is such a table.

  /** A number that tells the names of one group apart: length, first and last letter. */
  function Code(name: string): int
    requires name != ""
  {
    |name| * 0x10000 + name[0] as int * 0x100 + name[|name| - 1] as int
  }

  ghost predicate Ascending(es: seq<Entry>)
  {
    AscendingIn(es, 0, |es|)
  }

  ghost predicate AscendingIn(es: seq<Entry>, lo: nat, hi: nat)
    requires hi <= |es|
  {
    forall i :: lo <= i < hi ==> Ascends(es, i)
  }

  predicate Ascends(es: seq<Entry>, i: nat)
    requires i < |es|
  {
    es[i].name != "" && (i > 0 ==> es[i - 1].name != "" && Code(es[i - 1].name) < Code(es[i].name))
  }

  lemma {:induction false} AscendingCodes(es: seq<Entry>, i: nat, j: nat)
    requires Ascending(es) && i < j < |es|
    ensures es[i].name != "" && es[j].name != "" && Code(es[i].name) < Code(es[j].name)
  {
    if i < j - 1 {
      AscendingCodes(es, i, j - 1);
    }
    assert Ascends(es, j);
  }

  lemma PairsAscend()
    ensures Ascending(PAIRS) && Ascending(HIDDEN)
  {
  }

  lemma ProcAscendsFirst(netIP: Kind)
    ensures AscendingIn(Entries(SectProc, netIP), 0, 4)
  {
  }

  lemma ProcAscendsSecond(netIP: Kind)
    ensures AscendingIn(Entries(SectProc, netIP), 4, 9)
  {
  }

  lemma ProcAscendsThird(netIP: Kind)
    ensures AscendingIn(Entries(SectProc, netIP), 9, 14)
  {
  }

  lemma ProcAscendsFourth(netIP: Kind)
    ensures AscendingIn(Entries(SectProc, netIP), 14, 18)
  {
  }

  lemma ProcAscends(netIP: Kind)
    ensures Ascending(Entries(SectProc, netIP))
  {
    ProcAscendsFirst(netIP);
    ProcAscendsSecond(netIP);
    ProcAscendsThird(netIP);
    ProcAscendsFourth(netIP);
  }

  lemma PProcAscendsFirst(netIP: Kind)
    ensures AscendingIn(Entries(SectPProc, netIP), 0, 4)
  {
  }

  lemma PProcAscendsSecond(netIP: Kind)
    ensures AscendingIn(Entries(SectPProc, netIP), 4, 9)
  {
  }

  lemma PProcAscendsThird(netIP: Kind)
    ensures AscendingIn(Entries(SectPProc, netIP), 9, 13)
  {
  }

  lemma PProcAscends(netIP: Kind)
    ensures Ascending(Entries(SectPProc, netIP))
  {
    PProcAscendsFirst(netIP);
    PProcAscendsSecond(netIP);
    PProcAscendsThird(netIP);
  }

  lemma FileAscendsFirst(netIP: Kind)
    ensures AscendingIn(Entries(SectFile, netIP), 0, 5)
  {
  }

  lemma FileAscendsSecond(netIP: Kind)
    ensures AscendingIn(Entries(SectFile, netIP), 5, 10)
  {
  }

  lemma FileAscendsThird(netIP: Kind)
    ensures AscendingIn(Entries(SectFile, netIP), 10, 15)
  {
  }

  lemma FileAscends(netIP: Kind)
    ensures Ascending(Entries(SectFile, netIP))
  {
    FileAscendsFirst(netIP);
    FileAscendsSecond(netIP);
    FileAscendsThird(netIP);
  }

  lemma NetAscends(netIP: Kind)
    ensures Ascending(Entries(SectNet, netIP))
  {
  }

  lemma ContAscends(netIP: Kind)
    ensures Ascending(Entries(SectCont, netIP))
  {
  }

  lemma PodAscendsFirst(netIP: Kind)
    ensures AscendingIn(Entries(SectPod, netIP), 0, 4)
  {
  }

  lemma PodAscendsSecond(netIP: Kind)
    ensures AscendingIn(Entries(SectPod, netIP), 4, 9)
  {
  }

  lemma PodAscends(netIP: Kind)
    ensures Ascending(Entries(SectPod, netIP))
  {
    PodAscendsFirst(netIP);
    PodAscendsSecond(netIP);
  }

  lemma EntriesAscend(s: Section, netIP: Kind)
    ensures Ascending(Entries(s, netIP))
  {
    match s
    case SectProc => ProcAscends(netIP);
    case SectPProc => PProcAscends(netIP);
    case SectFile => FileAscends(netIP);
    case SectNet => NetAscends(netIP);
    case SectCont => ContAscends(netIP);
    case SectPod => PodAscends(netIP);
    case _ =>
  }

  lemma SameEntry(es: seq<Entry>, a: Entry, b: Entry)
    requires Ascending(es) && a in es && b in es && a.name == b.name
    ensures a == b
  {
    var i :| 0 <= i < |es| && es[i] == a;
    var j :| 0 <= j < |es| && es[j] == b;
    if i < j {
      AscendingCodes(es, i, j);
    } else if j < i {
      AscendingCodes(es, j, i);
    }
  }

  // ------------------------------------------------------------------
  // The names that end in `+`.

  predicate PlusFree(s: string)
  {
    s != "" ==> s[|s| - 1] != '+'
  }

  ghost predicate PlusFreeNames(es: seq<Entry>)
  {
    forall i :: 0 <= i < |es| ==> PlusFree(es[i].name)
  }

  lemma ProcPlusFree(netIP: Kind)
    ensures PlusFreeNames(Entries(SectProc, netIP))
  {
  }

  lemma PProcPlusFree(netIP: Kind)
    ensures PlusFreeNames(Entries(SectPProc, netIP))
  {
  }

  lemma FilePlusFree(netIP: Kind)
    ensures PlusFreeNames(Entries(SectFile, netIP))
  {
  }

  lemma OnlyPodsHavePlus(s: Section, netIP: Kind)
    requires s != SectPod
    ensures PlusFreeNames(Entries(s, netIP))
  {
    match s
    case SectProc => ProcPlusFree(netIP);
    case SectPProc => PProcPlusFree(netIP);
    case SectFile => FilePlusFree(netIP);
    case _ =>
  }

  predicate Bare(name: string)
  {
    name == "hostip" || name == "internalip" || name == "services"
  }

  lemma PodNames(netIP: Kind)
    ensures forall i :: 0 <= i < 9 ==> !Bare(Entries(SectPod, netIP)[i].name)
    ensures forall i :: 0 <= i < 9 && i != 3 && i != 6 && i != 8 ==> PlusFree(Entries(SectPod, netIP)[i].name)
  {
    forall i | 0 <= i < 9 ensures !Bare(Entries(SectPod, netIP)[i].name) {
      var name := Entries(SectPod, netIP)[i].name;
      if |name| == 8 || |name| == 10 {
        assert i == 4 || i == 7;
        assert name[0] == 'n' || name[0] == 'r';
      }
    }
  }

  function Stem(s: string): string
  {
    if s == "" then "" else s[..|s| - 1]
  }

  lemma PodStems(netIP: Kind)
    ensures forall i :: i == 3 || i == 6 || i == 8 ==> Bare(Stem(Entries(SectPod, netIP)[i].name))
  {
    assert Stem("hostip+") == "hostip";
    assert Stem("internalip+") == "internalip";
    assert Stem("services+") == "services";
  }

  lemma PodTwins(a: Entry, b: Entry, netIP: Kind)
    requires a in Entries(SectPod, netIP) && b in Entries(SectPod, netIP)
    ensures a.name != b.name + "+"
  {
    var es := Entries(SectPod, netIP);
    var i :| 0 <= i < |es| && es[i] == a;
    var j :| 0 <= j < |es| && es[j] == b;
    PodNames(netIP);
    PodStems(netIP);
    PlusLast(b.name);
    assert Stem(b.name + "+") == b.name && !PlusFree(b.name + "+");
    assert PlusFree(es[i].name) || Bare(Stem(es[i].name));
  }

  lemma EntriesHaveNoTwins(s: Section, a: Entry, b: Entry, netIP: Kind)
    requires a in Entries(s, netIP) && b in Entries(s, netIP)
    ensures a.name != b.name + "+"
  {
    if s == SectPod {
      PodTwins(a, b, netIP);
    } else {
      OnlyPodsHavePlus(s, netIP);
      NoPlus(Entries(s, netIP), a);
      PlusLast(b.name);
    }
  }

  lemma NoPlus(es: seq<Entry>, e: Entry)
    requires PlusFreeNames(es) && e in es
    ensures PlusFree(e.name)
  {
  }

  lemma NotTwins(f: Field, g: Field, netIP: Kind)
    requires IsExported(f, netIP) && IsExported(g, netIP) && f.section == g.section != SectNone
    ensures !Twins(f, g)
  {
    InSection(f, netIP);
    InSection(g, netIP);
    EntriesHaveNoTwins(f.section, Entry(LastPart(f), f.kind), Entry(LastPart(g), g.kind), netIP);
  }

  lemma InSection(f: Field, netIP: Kind)
    requires IsExported(f, netIP) && f.section != SectNone
    ensures f.sects != [] && Entry(LastPart(f), f.kind) in Entries(f.section, netIP)
  {
  }

  lemma TableHasNoTwins(table: seq<Field>, netIP: Kind)
    requires IsTable(table, netIP)
    ensures NoTwins(table)
  {
    forall f: Field, g: Field | f in table && g in table && f.section == g.section != SectNone && |f.sects| == |g.sects| == 3
      ensures !Twins(f, g)
    {
      NotTwins(f, g, netIP);
    }
  }

  // ------------------------------------------------------------------
  // The table exists.

  lemma SameParts(f: Field, g: Field, netIP: Kind)
    requires IsExported(f, netIP) && IsExported(g, netIP) && |f.sects| == |g.sects| && f.Name() == g.Name()
    ensures f.sects == g.sects
  {
    ExportedIsWellNamed(f, netIP);
    ExportedIsWellNamed(g, netIP);
    SplitJoinFree(f.sects, '.');
    SplitJoinFree(g.sects, '.');
  }

  /** A hidden field and a field of a section differ in name. */
  lemma HiddenApart(f: Field, g: Field, netIP: Kind)
    requires IsExported(f, netIP) && f.section == SectNone && |f.sects| == 3
    requires IsSectionField(g, netIP) && g.section != SectNone
    ensures f.sects != g.sects
  {
    assert Entry(f.sects[2], f.kind) in HIDDEN;
    if f.sects == g.sects {
      ComponentInjective(g.section, SectPod);
      var es := Entries(SectPod, netIP);
      var i :| 0 <= i < |es| && es[i] == Entry(g.sects[2], g.kind);
      PodNames(netIP);
    }
  }

  /** No two exported fields have the same name. */
  lemma NamesTellApart(f: Field, g: Field, netIP: Kind)
    requires IsExported(f, netIP) && IsExported(g, netIP) && |f.sects| == |g.sects| && f.Name() == g.Name()
    ensures f == g
  {
    SameParts(f, g, netIP);
    PairsAscend();
    if |f.sects| == 2 {
      SameEntry(PAIRS, Entry(f.sects[1], f.kind), Entry(g.sects[1], g.kind));
    } else {
      if f.section != SectNone && g.section != SectNone {
        ComponentInjective(f.section, g.section);
        EntriesAscend(f.section, netIP);
        SameEntry(Entries(f.section, netIP), Entry(f.sects[2], f.kind), Entry(g.sects[2], g.kind));
      } else if f.section == SectNone && g.section == SectNone {
        SameEntry(HIDDEN, Entry(f.sects[2], f.kind), Entry(g.sects[2], g.kind));
      } else if f.section == SectNone {
        HiddenApart(f, g, netIP);
      } else {
        HiddenApart(g, f, netIP);
      }
    }
  }

  const SECTIONS: seq<Section> :=
    [SectProc, SectPProc, SectFile, SectNet, SectFlow, SectCont, SectNode, SectMeta, SectPod, SectK8sEvt]

  function FieldsOf(entries: seq<Entry>, start: seq<string>, s: Section): (fields: seq<Field>)
    ensures |fields| == |entries|
    ensures forall i :: 0 <= i < |entries| ==> fields[i] == Field(start + [entries[i].name], s, entries[i].kind)
  {
    seq(|entries|, i requires 0 <= i < |entries| => Field(start + [entries[i].name], s, entries[i].kind))
  }

  function SectionFields(ss: seq<Section>, netIP: Kind): seq<Field>
  {
    if ss == [] then [] else FieldsOf(Entries(ss[0], netIP), ["sf", Component(ss[0])], ss[0]) + SectionFields(ss[1..], netIP)
  }

  function AllFields(netIP: Kind): seq<Field>
  {
    FieldsOf(PAIRS, ["sf"], SectNone) + (FieldsOf(HIDDEN, ["sf", "pod"], SectNone) + SectionFields(SECTIONS, netIP))
  }

  lemma FieldsOfMember(entries: seq<Entry>, start: seq<string>, s: Section, f: Field)
    ensures f in FieldsOf(entries, start, s) <==>
            |f.sects| == |start| + 1 && f.sects[..|start|] == start && f.section == s && Entry(f.sects[|start|], f.kind) in entries
  {
    var fields := FieldsOf(entries, start, s);
    if |f.sects| == |start| + 1 && f.sects[..|start|] == start && f.section == s && Entry(f.sects[|start|], f.kind) in entries {
      var i :| 0 <= i < |entries| && entries[i] == Entry(f.sects[|start|], f.kind);
      assert f.sects == start + [f.sects[|start|]];
      assert fields[i] == f;
    }
  }

  lemma {:induction false} SectionFieldsMember(ss: seq<Section>, netIP: Kind, f: Field)
    ensures f in SectionFields(ss, netIP) <==> f.section in ss && IsSectionField(f, netIP)
  {
    if ss != [] {
      SectionFieldsMember(ss[1..], netIP, f);
      FieldsOfMember(Entries(ss[0], netIP), ["sf", Component(ss[0])], ss[0], f);
      assert ss == [ss[0]] + ss[1..];
      TwoParts(f, Component(ss[0]));
    }
  }

  lemma TwoParts(f: Field, c: string)
    ensures |f.sects| == 3 ==> (f.sects[..2] == ["sf", c] <==> f.sects[0] == "sf" && f.sects[1] == c)
  {
    if |f.sects| == 3 {
      assert f.sects[..2] == [f.sects[0], f.sects[1]];
    }
  }

  lemma PairMember(f: Field)
    ensures f in FieldsOf(PAIRS, ["sf"], SectNone) <==> IsPair(f)
  {
    FieldsOfMember(PAIRS, ["sf"], SectNone, f);
    if |f.sects| == 2 {
      assert f.sects[..1] == [f.sects[0]];
    }
  }

  lemma HiddenMember(f: Field)
    ensures f in FieldsOf(HIDDEN, ["sf", "pod"], SectNone) <==> IsHidden(f)
  {
    FieldsOfMember(HIDDEN, ["sf", "pod"], SectNone, f);
    TwoParts(f, "pod");
  }

  lemma AllFieldsMember(netIP: Kind, f: Field)
    ensures f in AllFields(netIP) <==> IsExported(f, netIP)
  {
    PairMember(f);
    HiddenMember(f);
    SectionFieldsMember(SECTIONS, netIP, f);
    AllSections(f.section);
    InThree(FieldsOf(PAIRS, ["sf"], SectNone), FieldsOf(HIDDEN, ["sf", "pod"], SectNone), SectionFields(SECTIONS, netIP), f);
  }

  lemma InThree(a: seq<Field>, b: seq<Field>, c: seq<Field>, f: Field)
    ensures f in a + (b + c) <==> f in a || f in b || f in c
  {
  }

  lemma AllSections(s: Section)
    ensures s in SECTIONS <==> s != SectNone
  {
    assert SECTIONS[0] == SectProc && SECTIONS[1] == SectPProc && SECTIONS[2] == SectFile && SECTIONS[3] == SectNet
      && SECTIONS[4] == SectFlow && SECTIONS[5] == SectCont && SECTIONS[6] == SectNode && SECTIONS[7] == SectMeta
      && SECTIONS[8] == SectPod && SECTIONS[9] == SectK8sEvt;
  }

  /** Sorting the exported fields gives the table. */
  lemma TableExists(netIP: Kind)
    ensures IsTable(Sort(AllFields(netIP)), netIP)
  {
    var all := AllFields(netIP);
    forall f: Field, g: Field | f in all && g in all && f != g ensures |f.sects| != |g.sects| || f.Name() != g.Name() {
      AllFieldsMember(netIP, f);
      AllFieldsMember(netIP, g);
      if |f.sects| == |g.sects| && f.Name() == g.Name() {
        NamesTellApart(f, g, netIP);
      }
    }
    SortSorts(all);
    forall f: Field ensures f in Sort(all) <==> IsExported(f, netIP) {
      AllFieldsMember(netIP, f);
    }
  }
  const HOSTIP := Of3(SectPod, Entry("hostip+", IPArrayKind))
  const INTERNALIP := Of3(SectPod, Entry("internalip+", IPArrayKind))
  const SERVICES := Of3(SectPod, Entry("services+", ServicesKind))

  lemma ListedAt(s: Section, i: nat, netIP: Kind)
    requires i < |Entries(s, netIP)|
    ensures IsExported(Of3(s, Entries(s, netIP)[i]), netIP)
  {
    assert Entries(s, netIP)[i] in Entries(s, netIP);
  }

  lemma ProcsListed(netIP: Kind)
    ensures IsExported(Of3(SectProc, Entry("aname", PtreeKind(ProcAName))), netIP)
    ensures IsExported(Of3(SectProc, Entry("oid", StrKind)), netIP)
  {
    ListedAt(SectProc, 12, netIP);
    ListedAt(SectProc, 2, netIP);
  }

  lemma PodsListed(netIP: Kind)
    ensures IsExported(HOSTIP, netIP) && IsExported(INTERNALIP, netIP) && IsExported(SERVICES, netIP)
  {
    ListedAt(SectPod, 3, netIP);
    ListedAt(SectPod, 8, netIP);
    ListedAt(SectPod, 6, netIP);
  }

  lemma NodesListed(netIP: Kind)
    ensures IsExported(Of3(SectNode, Entry("id", StrKind)), netIP)
  {
    ListedAt(SectNode, 0, netIP);
  }

  lemma Listed(netIP: Kind)
    ensures IsExported(Of3(SectProc, Entry("aname", PtreeKind(ProcAName))), netIP)
    ensures IsExported(Of3(SectProc, Entry("oid", StrKind)), netIP) && IsExported(Of3(SectNode, Entry("id", StrKind)), netIP)
    ensures IsExported(HOSTIP, netIP) && IsExported(INTERNALIP, netIP) && IsExported(SERVICES, netIP)
  {
    ProcsListed(netIP);
    PodsListed(netIP);
    NodesListed(netIP);
  }
}
