/**
 The table of exported fields: sorting by (number of components, name) brings the
 fields of a section together, which the encoder's section state machine relies on.
 */
module FieldTable {
  import opened Text

  datatype Section =
    | SectNone | SectProc | SectPProc | SectFile | SectNet | SectFlow
    | SectCont | SectNode | SectMeta | SectPod | SectK8sEvt

  datatype PtreeAttr =
    | PProcName | PProcExe | PProcArgs | PProcUID | PProcUser | PProcGID | PProcGroup
    | PProcTTY | PProcEntry | PProcCmdLine | ProcAExe | ProcAName | ProcACmdLine | ProcAPID

  /** How a field's value is written: the branch that its index, type and source select. */
  datatype Kind =
    | StrKind | IntKind | BoolKind | OpFlagsKind | OpenFlagsKind | PortsKind
    | IPArrayKind | WrappedKind | ServicesKind | PtreeKind(attr: PtreeAttr)

  /** A field by the components of its name. */
  datatype Field = Field(sects: seq<string>, section: Section, kind: Kind)
  {
    function Name(): string
    {
      Join(sects, '.')
    }

    /** Everything up to the last component of a name of three. */
    function Prefix(): string
      requires |sects| == 3
    {
      sects[0] + "." + sects[1] + "."
    }

    /** The attribute name written: a trailing `+` is dropped. */
    function Key(): string
    {
      var last := if sects == [] then "" else sects[|sects| - 1];
      if HasSuffix(last, "+") then last[..|last| - 1] else last
    }
  }

  // ------------------------------------------------------------------
  // The order of the table.

  predicate LexLess(a: string, b: string)
  {
    if a == "" || b == "" then a == "" && b != ""
    else a[0] < b[0] || (a[0] == b[0] && LexLess(a[1..], b[1..]))
  }

  predicate Before(f: Field, g: Field)
  {
    |f.sects| < |g.sects| || (|f.sects| == |g.sects| && LexLess(f.Name(), g.Name()))
  }

  ghost predicate Sorted(table: seq<Field>)
  {
    forall i, j :: 0 <= i < j < |table| ==> Before(table[i], table[j])
  }

  lemma {:induction false} LexTransitive(a: string, b: string, c: string)
    requires LexLess(a, b) && LexLess(b, c)
    ensures LexLess(a, c)
  {
    if a != "" && c != "" && a[0] == b[0] == c[0] {
      LexTransitive(a[1..], b[1..], c[1..]);
    }
  }

  lemma {:induction false} LexAsymmetric(a: string, b: string)
    requires LexLess(a, b)
    ensures !LexLess(b, a)
  {
    if a != "" && a[0] == b[0] {
      LexAsymmetric(a[1..], b[1..]);
    }
  }

  /** The first difference decides. */
  lemma {:induction false} LexAt(a: string, b: string, k: nat)
    requires k < |a| && k < |b| && a[..k] == b[..k] && a[k] < b[k]
    ensures LexLess(a, b)
  {
    if k > 0 {
      assert a[0] == a[..k][0] && b[0] == b[..k][0];
      assert a[1..][..k - 1] == a[..k][1..] && b[1..][..k - 1] == b[..k][1..];
      LexAt(a[1..], b[1..], k - 1);
    }
  }

  /** What stands between two texts with a common prefix has that prefix. */
  lemma {:induction false} PrefixConvex(p: string, a: string, b: string, c: string)
    requires HasPrefix(a, p) && HasPrefix(c, p) && LexLess(a, b) && LexLess(b, c)
    ensures HasPrefix(b, p)
  {
    if p != "" {
      assert a[0] == p[0] && c[0] == p[0];
      assert a[1..][..|p| - 1] == a[..|p|][1..] && c[1..][..|p| - 1] == c[..|p|][1..];
      assert b != "" && b[0] == p[0];
      PrefixConvex(p[1..], a[1..], b[1..], c[1..]);
      assert b[..|p|] == [b[0]] + b[1..][..|p| - 1];
      assert p == [p[0]] + p[1..];
    }
  }

  lemma {:induction false} LexTotal(a: string, b: string)
    ensures a == b || LexLess(a, b) || LexLess(b, a)
  {
    if a != "" && b != "" && a[0] == b[0] {
      LexTotal(a[1..], b[1..]);
      assert a == [a[0]] + a[1..] && b == [b[0]] + b[1..];
    }
  }

  lemma BeforeTransitive(f: Field, g: Field, h: Field)
    requires Before(f, g) && Before(g, h)
    ensures Before(f, h)
  {
    if |f.sects| == |g.sects| == |h.sects| {
      LexTransitive(f.Name(), g.Name(), h.Name());
    }
  }

  /** Fields are told apart by their names. */
  ghost predicate NamesDiffer(fields: seq<Field>)
  {
    forall f: Field, g: Field :: f in fields && g in fields && f != g ==> |f.sects| != |g.sects| || f.Name() != g.Name()
  }

  function Insert(f: Field, table: seq<Field>): seq<Field>
  {
    if table == [] || Before(f, table[0]) then [f] + table
    else if f == table[0] then table
    else [table[0]] + Insert(f, table[1..])
  }

  function Sort(fields: seq<Field>): seq<Field>
  {
    if fields == [] then [] else Insert(fields[0], Sort(fields[1..]))
  }

  lemma {:induction false} InsertKeeps(f: Field, table: seq<Field>)
    ensures forall g: Field :: g in Insert(f, table) <==> g == f || g in table
  {
    if table != [] && !Before(f, table[0]) && f != table[0] {
      InsertKeeps(f, table[1..]);
      assert table == [table[0]] + table[1..];
    }
  }

  lemma ConsSorted(f: Field, table: seq<Field>)
    requires Sorted(table) && forall g: Field :: g in table ==> Before(f, g)
    ensures Sorted([f] + table)
  {
    var t := [f] + table;
    forall i, j | 0 <= i < j < |t| ensures Before(t[i], t[j]) {
      assert t[j] == table[j - 1] && table[j - 1] in table;
      if i > 0 {
        assert t[i] == table[i - 1] && Before(table[i - 1], table[j - 1]);
      }
    }
  }

  lemma HeadIsFirst(table: seq<Field>, g: Field)
    requires Sorted(table) && table != [] && g in table[1..]
    ensures Before(table[0], g)
  {
    var i :| 0 <= i < |table[1..]| && table[1..][i] == g;
    assert Before(table[0], table[i + 1]);
  }

  lemma {:induction false} InsertSorts(f: Field, table: seq<Field>)
    requires Sorted(table) && forall g: Field :: g in table ==> f == g || Before(f, g) || Before(g, f)
    ensures Sorted(Insert(f, table))
  {
    if table == [] {
      assert Insert(f, table) == [f];
    } else if Before(f, table[0]) {
      forall g: Field | g in table ensures Before(f, g) {
        if g != table[0] {
          assert table == [table[0]] + table[1..];
          HeadIsFirst(table, g);
          BeforeTransitive(f, table[0], g);
        }
      }
      ConsSorted(f, table);
    } else if f != table[0] {
      SortedTail(table);
      assert table[0] in table;
      InsertSorts(f, table[1..]);
      InsertKeeps(f, table[1..]);
      forall g: Field | g in Insert(f, table[1..]) ensures Before(table[0], g) {
        if g != f {
          HeadIsFirst(table, g);
        }
      }
      ConsSorted(table[0], Insert(f, table[1..]));
    }
  }

  /** Fields with different names can be sorted. */
  lemma {:induction false} SortSorts(fields: seq<Field>)
    requires NamesDiffer(fields)
    ensures Sorted(Sort(fields)) && forall f: Field :: f in Sort(fields) <==> f in fields
  {
    if fields != [] {
      var f, rest := fields[0], fields[1..];
      assert fields == [f] + rest;
      SortSorts(rest);
      forall g: Field | g in Sort(rest) ensures f == g || Before(f, g) || Before(g, f) {
        assert g in fields && f in fields;
        LexTotal(f.Name(), g.Name());
      }
      InsertSorts(f, Sort(rest));
      InsertKeeps(f, Sort(rest));
    }
  }

  /** Sorting gives one table, whatever order the mapper table was enumerated in. */
  lemma {:induction false} SortedIsUnique(a: seq<Field>, b: seq<Field>)
    requires Sorted(a) && Sorted(b) && forall f: Field :: f in a <==> f in b
    ensures a == b
  {
    if a == [] {
      SomeMember(b);
    } else if b == [] {
      SomeMember(a);
    } else {
      FirstIsLeast(a, b);
      FirstIsLeast(b, a);
      if a[0] != b[0] {
        BeforeAsymmetric(a[0], b[0]);
      }
      assert a == [a[0]] + a[1..] && b == [b[0]] + b[1..];
      forall f: Field ensures f in a[1..] <==> f in b[1..] {
        HeadIsNotInTail(a);
        HeadIsNotInTail(b);
        assert f in a <==> f == a[0] || f in a[1..];
        assert f in b <==> f == b[0] || f in b[1..];
      }
      SortedTail(a);
      SortedTail(b);
      SortedIsUnique(a[1..], b[1..]);
    }
  }

  lemma SomeMember(a: seq<Field>)
    ensures a == [] || exists f: Field :: f in a
  {
    if a != [] {
      assert a[0] in a;
    }
  }

  lemma SortedTail(a: seq<Field>)
    requires Sorted(a) && a != []
    ensures Sorted(a[1..])
  {
    forall i, j | 0 <= i < j < |a[1..]| ensures Before(a[1..][i], a[1..][j]) {
      assert Before(a[i + 1], a[j + 1]);
    }
  }

  lemma BeforeAsymmetric(f: Field, g: Field)
    requires Before(f, g)
    ensures !Before(g, f)
  {
    if |f.sects| == |g.sects| {
      LexAsymmetric(f.Name(), g.Name());
    }
  }

  lemma FirstIsLeast(a: seq<Field>, b: seq<Field>)
    requires Sorted(a) && a != [] && b != [] && b[0] in a
    ensures a[0] == b[0] || Before(a[0], b[0])
  {
    var i :| 0 <= i < |a| && a[i] == b[0];
    if i > 0 {
      assert Before(a[0], a[i]);
    }
  }

  lemma HeadIsNotInTail(a: seq<Field>)
    requires Sorted(a) && a != []
    ensures a[0] !in a[1..]
  {
    if a[0] in a[1..] {
      var i :| 0 <= i < |a[1..]| && a[1..][i] == a[0];
      assert Before(a[0], a[i + 1]);
      BeforeAsymmetric(a[0], a[0]);
    }
  }

  // ------------------------------------------------------------------
  // Names and sections.

  /** The second component of the names of a section's fields. */
  function Component(s: Section): string
  {
    match s
    case SectNone => ""
    case SectProc => "proc"
    case SectPProc => "pproc"
    case SectFile => "file"
    case SectNet => "net"
    case SectFlow => "flow"
    case SectCont => "container"
    case SectNode => "node"
    case SectMeta => "meta"
    case SectPod => "pod"
    case SectK8sEvt => "ke"
  }

  /** What the exported table promises of each field. */
  predicate WellNamed(f: Field)
  {
    2 <= |f.sects| <= 3
    && (forall i :: 0 <= i < |f.sects| ==> '.' !in f.sects[i])
    && f.sects[0] == "sf"
    && (|f.sects| == 2 ==> f.section == SectNone)
    && (f.section != SectNone ==> f.sects[1] == Component(f.section))
  }

  ghost predicate WellNamedTable(table: seq<Field>)
  {
    forall i :: 0 <= i < |table| ==> WellNamed(table[i])
  }

  lemma ComponentInjective(s: Section, t: Section)
    requires s != SectNone && t != SectNone && Component(s) == Component(t)
    ensures s == t
  {
    assert |Component(s)| == |Component(t)|;
    assert Component(s)[0] == Component(t)[0];
    assert |Component(s)| == 4 ==> Component(s)[1] == Component(t)[1];
  }

  lemma NameParts(f: Field)
    requires |f.sects| == 3
    ensures f.Name() == f.Prefix() + f.sects[2]
  {
    assert f.sects[1..][1..] == [f.sects[2]];
    assert Join(f.sects[1..], '.') == f.sects[1] + "." + Join(f.sects[1..][1..], '.');
    assert Join(f.sects, '.') == f.sects[0] + "." + Join(f.sects[1..], '.');
    assert f.Name() == f.sects[0] + "." + (f.sects[1] + "." + f.sects[2]);
  }

  /** Within names of three components, a shared text prefix is a shared section. */
  lemma PrefixNamesSection(f: Field, g: Field)
    requires |f.sects| == 3 && |g.sects| == 3 && HasPrefix(f.Name(), g.Prefix())
    requires forall i :: 0 <= i < 3 ==> '.' !in f.sects[i] && '.' !in g.sects[i]
    ensures f.sects[0] == g.sects[0] && f.sects[1] == g.sects[1]
  {
    var rest := f.Name()[|g.Prefix()|..];
    var tail := g.sects[1] + "." + rest;
    assert f.Name() == g.sects[0] + "." + tail by {
      assert f.Name() == g.Prefix() + rest;
    }
    SplitJoinFree(f.sects, '.');
    SplitAround(g.sects[0], tail, '.');
    SplitAround(g.sects[1], rest, '.');
    SplitWhole(g.sects[0], '.');
    SplitWhole(g.sects[1], '.');
    assert Split(f.Name(), '.') == [g.sects[0]] + ([g.sects[1]] + Split(rest, '.'));
  }

  /** Fields of one section are contiguous among the tagged ones. */
  lemma SectionsContiguous(f: Field, g: Field, h: Field)
    requires WellNamed(f) && WellNamed(g) && WellNamed(h)
    requires Before(f, g) && Before(g, h)
    requires f.section == h.section != SectNone && g.section != SectNone
    ensures g.section == f.section
  {
    NameParts(f);
    NameParts(h);
    assert f.Prefix() == h.Prefix();
    assert HasPrefix(f.Name(), f.Prefix()) && HasPrefix(h.Name(), f.Prefix());
    PrefixConvex(f.Prefix(), f.Name(), g.Name(), h.Name());
    PrefixNamesSection(g, f);
    ComponentInjective(g.section, f.section);
  }

  // ------------------------------------------------------------------
  // Runs of fields with one section.

  datatype Run = Run(section: Section, fields: seq<Field>)

  /** The maximal runs of equal sections, in order. */
  function Runs(fields: seq<Field>): (runs: seq<Run>)
    ensures fields == [] <==> runs == []
    ensures fields != [] ==> runs[|runs| - 1].section == fields[|fields| - 1].section
    ensures forall i :: 0 <= i < |runs| ==> runs[i].fields != []
  {
    if fields == [] then [] else
      Extend(Runs(fields[..|fields| - 1]), fields[|fields| - 1])
  }

  /** A field joins the last run if that has its section, and starts a run of its own otherwise. */
  function Extend(runs: seq<Run>, f: Field): seq<Run>
  {
    if runs != [] && runs[|runs| - 1].section == f.section then
      runs[..|runs| - 1] + [Run(f.section, runs[|runs| - 1].fields + [f])]
    else runs + [Run(f.section, [f])]
  }

  function OfSection(fields: seq<Field>, s: Section): seq<Field>
  {
    if fields == [] then [] else
      var f := fields[|fields| - 1];
      OfSection(fields[..|fields| - 1], s) + if f.section == s then [f] else []
  }

  ghost predicate Contiguous(fields: seq<Field>)
  {
    forall i, j, k :: 0 <= i < j < k < |fields| && fields[i].section == fields[k].section ==>
      fields[j].section == fields[i].section
  }

  ghost predicate DistinctSections(runs: seq<Run>)
  {
    forall i, j :: 0 <= i < j < |runs| ==> runs[i].section != runs[j].section
  }

  predicate Occurs(fields: seq<Field>, s: Section)
  {
    exists k :: 0 <= k < |fields| && fields[k].section == s
  }

  lemma OccursLater(fields: seq<Field>, s: Section)
    requires fields != [] && (Occurs(fields[..|fields| - 1], s) || fields[|fields| - 1].section == s)
    ensures Occurs(fields, s)
  {
    var init := fields[..|fields| - 1];
    if Occurs(init, s) {
      var k :| 0 <= k < |init| && init[k].section == s;
      assert fields[k].section == s;
    }
  }

  lemma ExtendSections(runs: seq<Run>, f: Field, i: nat)
    requires i < |Extend(runs, f)|
    ensures Extend(runs, f)[i].section == if i < |runs| then runs[i].section else f.section
  {
  }

  lemma {:induction false} RunSectionOccurs(fields: seq<Field>, i: nat)
    requires i < |Runs(fields)|
    ensures Occurs(fields, Runs(fields)[i].section)
  {
    var init, f := fields[..|fields| - 1], fields[|fields| - 1];
    ExtendSections(Runs(init), f, i);
    if i < |Runs(init)| {
      RunSectionOccurs(init, i);
    }
    OccursLater(fields, Runs(fields)[i].section);
  }

  /** In a contiguous list, a run with the section of the next field makes it the section of the last run. */
  lemma NextSectionIsLast(fields: seq<Field>, i: nat)
    requires fields != [] && Contiguous(fields) && i < |Runs(fields[..|fields| - 1])|
    requires Runs(fields[..|fields| - 1])[i].section == fields[|fields| - 1].section
    ensures var runs := Runs(fields[..|fields| - 1]); runs[|runs| - 1].section == fields[|fields| - 1].section
  {
    var n := |fields| - 1;
    var init := fields[..n];
    RunSectionOccurs(init, i);
    var k :| 0 <= k < |init| && init[k].section == Runs(init)[i].section;
    assert fields[k].section == fields[n].section;
    assert init[n - 1] == fields[n - 1];
    if k < n - 1 {
      assert fields[n - 1].section == fields[k].section;
    }
  }

  /** In a contiguous list every section has one run. */
  lemma {:induction false} RunsAreDistinct(fields: seq<Field>)
    requires Contiguous(fields)
    ensures DistinctSections(Runs(fields))
  {
    if fields != [] {
      var init, f := fields[..|fields| - 1], fields[|fields| - 1];
      var runs := Runs(init);
      RunsAreDistinct(init);
      if runs != [] && runs[|runs| - 1].section == f.section {
        assert forall i :: 0 <= i < |runs| ==> Runs(fields)[i].section == runs[i].section;
      } else {
        forall i | 0 <= i < |runs| ensures runs[i].section != f.section {
          if runs[i].section == f.section {
            NextSectionIsLast(fields, i);
          }
        }
      }
    }
  }

  /** A field that is added joins the run of its section and leaves the others. */
  lemma RunAfter(runs: seq<Run>, f: Field, i: nat)
    requires DistinctSections(runs) && DistinctSections(Extend(runs, f)) && i < |runs|
    ensures Extend(runs, f)[i] == Run(runs[i].section, runs[i].fields + if f.section == runs[i].section then [f] else [])
  {
    var n := |runs| - 1;
    if runs[n].section != f.section {
      assert Extend(runs, f)[i] == runs[i] && Extend(runs, f)[n + 1].section == f.section;
    }
    assert runs[i] == Run(runs[i].section, runs[i].fields + []);
  }

  /** A run that is started is the first of its section. */
  lemma NewRunIsFirst(fields: seq<Field>, f: Field)
    requires DistinctSections(Extend(Runs(fields), f)) && |Extend(Runs(fields), f)| > |Runs(fields)|
    ensures OfSection(fields, f.section) == []
  {
    var runs := Runs(fields);
    forall k | 0 <= k < |runs| ensures runs[k].section != f.section {
      assert Extend(runs, f)[k] == runs[k] && Extend(runs, f)[|runs|].section == f.section;
    }
    NoRunNoFields(fields, f.section);
  }

  /** The one run of a section holds all its fields, in order. */
  lemma {:induction false} RunsAreSections(fields: seq<Field>, i: nat)
    requires Contiguous(fields) && i < |Runs(fields)|
    ensures Runs(fields)[i].fields == OfSection(fields, Runs(fields)[i].section)
  {
    var init, f := fields[..|fields| - 1], fields[|fields| - 1];
    RunsAreDistinct(fields);
    RunsAreDistinct(init);
    if i < |Runs(init)| {
      RunsAreSections(init, i);
      RunAfter(Runs(init), f, i);
    } else {
      NewRunIsFirst(init, f);
    }
  }

  lemma {:induction false} NoRunNoFields(fields: seq<Field>, s: Section)
    ensures (forall i :: 0 <= i < |Runs(fields)| ==> Runs(fields)[i].section != s) ==> OfSection(fields, s) == []
  {
    if fields != [] && forall i :: 0 <= i < |Runs(fields)| ==> Runs(fields)[i].section != s {
      var init := fields[..|fields| - 1];
      var runs := Runs(init);
      forall i | 0 <= i < |runs| ensures runs[i].section != s {
        assert runs[i].section == Runs(fields)[i].section;
      }
      NoRunNoFields(init, s);
      assert Runs(fields)[|Runs(fields)| - 1].section != s;
    }
  }
}
