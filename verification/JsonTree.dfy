/**
 The shape of the encoder's output for a sorted table: every section is opened once,
 with all its fields and no key twice, and the last section of the walk is always one
 that is shown, so that the unconditional closing brace has something to close.
 */
module JsonTree {
  import opened Text
  import opened JsonString
  import opened Json
  import opened JsonPieces
  import opened FieldTable
  import opened JsonFields
  import opened JsonRecord

  // ------------------------------------------------------------------
  // The tagged fields of a sorted table are sorted.

  ghost predicate Ordered(fields: seq<Field>)
  {
    Sorted(fields) && WellNamedTable(fields)
  }

  lemma {:induction false} TaggedAreFields(r: Rec, fields: seq<Field>)
    ensures forall f: Field :: f in Tagged(r, fields) <==> f in fields && |f.sects| == 3 && StatusOf(r, f.section) != Ignored
  {
    if fields != [] {
      var init, last := fields[..|fields| - 1], fields[|fields| - 1];
      TaggedAreFields(r, init);
      forall f: Field ensures f in fields <==> f in init || f == last {
        assert fields == init + [last];
      }
    }
  }

  lemma {:induction false} TaggedOrdered(r: Rec, fields: seq<Field>)
    requires Ordered(fields)
    ensures Ordered(Tagged(r, fields))
    ensures forall i :: 0 <= i < |Tagged(r, fields)| ==> Tagged(r, fields)[i] in fields
  {
    if fields != [] {
      var init, last := fields[..|fields| - 1], fields[|fields| - 1];
      TaggedOrdered(r, init);
      var w := Tagged(r, init);
      forall i | 0 <= i < |w| ensures Before(w[i], last) && w[i] in fields {
        var k :| 0 <= k < |init| && init[k] == w[i];
        assert Before(fields[k], fields[|fields| - 1]);
        assert w[i] == fields[k];
      }
      assert WellNamed(last);
    }
  }

  lemma OrderedContiguous(w: seq<Field>)
    requires Ordered(w) && forall i :: 0 <= i < |w| ==> w[i].section != SectNone
    ensures Contiguous(w)
  {
    forall i, j, k | 0 <= i < j < k < |w| && w[i].section == w[k].section ensures w[j].section == w[i].section {
      SectionsContiguous(w[i], w[j], w[k]);
    }
  }

  /** Fields of one section stand together in the walk. */
  lemma TaggedContiguous(r: Rec, fields: seq<Field>)
    requires Ordered(fields)
    ensures Contiguous(Tagged(r, fields))
  {
    TaggedOrdered(r, fields);
    TaggedAreFields(r, fields);
    forall i | 0 <= i < |Tagged(r, fields)| ensures Tagged(r, fields)[i].section != SectNone {
      assert Tagged(r, fields)[i] in Tagged(r, fields);
    }
    OrderedContiguous(Tagged(r, fields));
  }

  // ------------------------------------------------------------------
  // The last section.

  /** The section whose name comes last among those the walk visits. */
  function LastSection(r: Rec): Section
  {
    if r.rtype == K8sEvent then SectNode else SectProc
  }

  lemma PrefixOrder(a: Field, b: Field, k: nat)
    requires |a.sects| == 3 && |b.sects| == 3 && k < |a.Prefix()| && k < |b.Prefix()|
    requires a.Prefix()[..k] == b.Prefix()[..k] && a.Prefix()[k] < b.Prefix()[k]
    ensures Before(a, b)
  {
    NameParts(a);
    NameParts(b);
    assert a.Name()[..k] == a.Prefix()[..k] && b.Name()[..k] == b.Prefix()[..k];
    LexAt(a.Name(), b.Name(), k);
  }

  lemma ComponentPrefix(f: Field)
    requires WellNamed(f) && |f.sects| == 3 && f.section != SectNone
    ensures f.Prefix() == "sf." + Component(f.section) + "."
  {
  }

  /** Where the name of a section first differs from that of the last one. */
  function Difference(s: Section, last: Section): nat
  {
    if last == SectNode then
      if s == SectK8sEvt || s == SectMeta then 3 else 0
    else if s == SectPProc || s == SectPod then 4
    else 3
  }

  lemma LastSectionIsLast(r: Rec, f: Field, g: Field)
    requires WellNamed(f) && WellNamed(g) && |f.sects| == 3 && |g.sects| == 3
    requires StatusOf(r, f.section) != Ignored && f.section != LastSection(r) && g.section == LastSection(r)
    ensures Before(f, g)
  {
    ComponentPrefix(f);
    ComponentPrefix(g);
    PrefixOrder(f, g, Difference(f.section, g.section));
  }

  lemma LastTagged(r: Rec, w: seq<Field>, g: Field)
    requires Ordered(w) && g in w && |g.sects| == 3 && g.section == LastSection(r)
    requires forall f: Field :: f in w ==> |f.sects| == 3 && StatusOf(r, f.section) != Ignored
    ensures w[|w| - 1].section == g.section
  {
    var k :| 0 <= k < |w| && w[k] == g;
    var f := w[|w| - 1];
    if k < |w| - 1 {
      assert Before(w[k], f) && f in w && WellNamed(f) && WellNamed(w[k]);
      if f.section != g.section {
        LastSectionIsLast(r, f, g);
        BeforeAsymmetric(f, g);
      }
    }
  }

  /** A table with a process field and a node field ends every walk in an open section. */
  lemma LastIsShown(r: Rec, fields: seq<Field>, g: Field)
    requires Ordered(fields) && g in fields && |g.sects| == 3 && g.section == LastSection(r)
    ensures LastShown(r, Runs(Tagged(r, fields)))
  {
    TaggedOrdered(r, fields);
    TaggedAreFields(r, fields);
    LastTagged(r, Tagged(r, fields), g);
  }

  // ------------------------------------------------------------------
  // Keys.

  function LastPart(f: Field): string
    requires f.sects != []
  {
    f.sects[|f.sects| - 1]
  }

  predicate Twins(f: Field, g: Field)
    requires f.sects != [] && g.sects != []
  {
    LastPart(f) == LastPart(g) + "+" && !HasSuffix(LastPart(g), "+")
  }

  /** Two fields of a section get the same key exactly when their names differ in a final `+` only. */
  lemma KeyCollision(f: Field, g: Field)
    requires WellNamed(f) && WellNamed(g) && f.section == g.section != SectNone
    ensures f.Key() == g.Key() <==> f.Name() == g.Name() || Twins(f, g) || Twins(g, f)
  {
    NameParts(f);
    NameParts(g);
    assert f.Prefix() == g.Prefix();
    var a, b := LastPart(f), LastPart(g);
    assert f.Name() == g.Name() <==> a == b by {
      assert f.Name()[|f.Prefix()|..] == a && g.Name()[|g.Prefix()|..] == b;
    }
    assert HasSuffix(a, "+") ==> a == a[..|a| - 1] + "+";
    assert HasSuffix(b, "+") ==> b == b[..|b| - 1] + "+";
    PlusLast(a);
    PlusLast(b);
  }

  lemma PlusLast(a: string)
    ensures HasSuffix(a + "+", "+") && (a + "+")[..|a|] == a
  {
    assert (a + "+")[|a|..] == "+";
  }

  /** No two fields of a section differ in a final `+` only. */
  ghost predicate NoTwins(fields: seq<Field>)
  {
    forall f: Field, g: Field :: f in fields && g in fields && f.section == g.section != SectNone && |f.sects| == |g.sects| == 3 ==>
      !Twins(f, g)
  }

  ghost predicate DistinctKeys(ps: seq<Piece>)
  {
    forall i, j :: 0 <= i < j < |ps| ==> ps[i].key != ps[j].key
  }

  lemma DistinctConcat(ps: seq<Piece>, qs: seq<Piece>)
    requires DistinctKeys(ps) && DistinctKeys(qs)
    requires forall i, j :: 0 <= i < |ps| && 0 <= j < |qs| ==> ps[i].key != qs[j].key
    ensures DistinctKeys(ps + qs)
  {
    forall i, j | 0 <= i < j < |ps + qs| ensures (ps + qs)[i].key != (ps + qs)[j].key {
      if j < |ps| {
        assert ps[i].key != ps[j].key;
      } else if i >= |ps| {
        assert qs[i - |ps|].key != qs[j - |ps|].key;
      }
    }
  }

  ghost predicate AllIn(part: seq<Field>, s: Section, whole: seq<Field>)
  {
    forall i :: 0 <= i < |part| ==> part[i].section == s && part[i] in whole
  }

  lemma {:induction false} OfSectionOrdered(fields: seq<Field>, s: Section)
    requires Ordered(fields)
    ensures Ordered(OfSection(fields, s)) && AllIn(OfSection(fields, s), s, fields)
  {
    if fields != [] {
      var init, last := fields[..|fields| - 1], fields[|fields| - 1];
      var part := OfSection(init, s);
      OfSectionOrdered(init, s);
      forall i | 0 <= i < |part| ensures Before(part[i], last) && part[i] in fields {
        var k :| 0 <= k < |init| && init[k] == part[i];
        assert Before(fields[k], fields[|fields| - 1]);
        assert part[i] == fields[k];
      }
      assert WellNamed(last) && last in fields;
    }
  }

  lemma DifferentKeys(part: seq<Field>, s: Section, w: seq<Field>, a: nat, b: nat)
    requires Ordered(part) && s != SectNone && AllIn(part, s, w) && NoTwins(w) && a < b < |part|
    requires forall i :: 0 <= i < |part| ==> |part[i].sects| == 3
    ensures part[a].Key() != part[b].Key()
  {
    var f, g := part[a], part[b];
    assert Before(f, g) && WellNamed(f) && WellNamed(g);
    KeyCollision(f, g);
    if f.Name() == g.Name() {
      LexAsymmetric(f.Name(), g.Name());
    }
  }

  lemma SubsetHasNoTwins(part: seq<Field>, whole: seq<Field>)
    requires NoTwins(whole) && forall f: Field :: f in part ==> f in whole
    ensures NoTwins(part)
  {
  }

  /** The object of a section holds all its fields, in the order of the table, with no key twice. */
  lemma SectionHoldsItsFields(r: Rec, fields: seq<Field>, html: bool, i: nat)
    requires Ordered(fields) && NoTwins(fields) && i < |Runs(Tagged(r, fields))|
    ensures var run := Runs(Tagged(r, fields))[i];
            run.fields == OfSection(Tagged(r, fields), run.section)
            && DistinctKeys(Attrs(r, run.fields, html))
  {
    var w := Tagged(r, fields);
    var s := Runs(w)[i].section;
    TaggedContiguous(r, fields);
    RunsAreSections(w, i);
    SectionKeysDistinct(r, fields, s, html);
  }

  lemma SectionKeysDistinct(r: Rec, fields: seq<Field>, s: Section, html: bool)
    requires Ordered(fields) && NoTwins(fields)
    ensures DistinctKeys(Attrs(r, OfSection(Tagged(r, fields), s), html))
  {
    var w := Tagged(r, fields);
    var part := OfSection(w, s);
    TaggedOrdered(r, fields);
    TaggedAreFields(r, fields);
    OfSectionOrdered(w, s);
    SubsetHasNoTwins(w, fields);
    forall a, b | 0 <= a < b < |part| ensures part[a].Key() != part[b].Key() {
      assert part[a] in w && part[b] in w;
      forall k | 0 <= k < |part| ensures |part[k].sects| == 3 && StatusOf(r, s) != Ignored {
        assert part[k] in w;
      }
      DifferentKeys(part, s, w, a, b);
    }
  }

  lemma SectionKeyInjective(s: Section, t: Section)
    requires SectionKey(s) == SectionKey(t)
    ensures s == t
  {
    assert |SectionKey(s)| == |SectionKey(t)|;
    assert |SectionKey(s)| > 0 ==> SectionKey(s)[0] == SectionKey(t)[0];
    assert |SectionKey(s)| > 1 ==> SectionKey(s)[1] == SectionKey(t)[1];
  }

  lemma {:induction false} SectionsAreRuns(r: Rec, runs: seq<Run>, html: bool, p: Piece)
    requires p in Sections(r, runs, html)
    ensures exists i :: 0 <= i < |runs| && p == SectionPiece(r, runs[i], html) && StatusOf(r, runs[i].section) == Shown
  {
    var n := |runs| - 1;
    if p in Sections(r, runs[..n], html) {
      SectionsAreRuns(r, runs[..n], html, p);
      var i :| 0 <= i < n && p == SectionPiece(r, runs[..n][i], html) && StatusOf(r, runs[..n][i].section) == Shown;
      assert p == SectionPiece(r, runs[i], html);
    } else {
      assert p == SectionPiece(r, runs[n], html);
    }
  }

  lemma {:induction false} DistinctRunsDistinctKeys(r: Rec, runs: seq<Run>, html: bool)
    requires DistinctSections(runs)
    ensures DistinctKeys(Sections(r, runs, html))
  {
    if runs != [] {
      var n := |runs| - 1;
      var before := Sections(r, runs[..n], html);
      DistinctRunsDistinctKeys(r, runs[..n], html);
      forall i | 0 <= i < |before| ensures before[i].key != SectionKey(runs[n].section) {
        SectionsAreRuns(r, runs[..n], html, before[i]);
        var k :| 0 <= k < n && before[i] == SectionPiece(r, runs[..n][k], html) && StatusOf(r, runs[..n][k].section) == Shown;
        assert runs[k].section != runs[n].section;
        if before[i].key == SectionKey(runs[n].section) {
          SectionKeyInjective(runs[k].section, runs[n].section);
        }
      }
    }
  }

  /** Each section shown is one member of the text. */
  lemma EachSectionOnce(r: Rec, fields: seq<Field>, html: bool)
    requires Ordered(fields)
    ensures DistinctKeys(Sections(r, Runs(Tagged(r, fields)), html))
  {
    TaggedContiguous(r, fields);
    RunsAreDistinct(Tagged(r, fields));
    DistinctRunsDistinctKeys(r, Runs(Tagged(r, fields)), html);
  }

  /** Over such a table the output is JSON, and says what is meant, exactly when every field written is sound. */
  lemma OrderedTableReads(r: Rec, version: string, fields: seq<Field>, html: bool, g: Field)
    requires PlainVersion(version) && Ordered(fields) && g in fields && |g.sects| == 3 && g.section == LastSection(r)
    ensures ParseText(EncodedText(r, version, fields, html)) == CleanOption(Tree(r, version, fields, html))
    ensures Tree(r, version, fields, html).Some? <==> IsNumber(version) && SoundFields(r, fields)
  {
    LastIsShown(r, fields, g);
    EncodedTextReads(r, version, fields, html);
  }
}
