/** What the encoder's output is for the exported table, for every record. */
module FaithfulEncoder {
  import opened Text
  import opened JsonString
  import opened Json
  import opened JsonPieces
  import opened FieldTable
  import opened JsonFields
  import opened JsonRecord
  import opened JsonTree
  import opened ExportedTable
  import E = JsonEncoder

  // ------------------------------------------------------------------
  // The condition.

  /**
   A record other than a Kubernetes event must have a process tree; if it has a pod,
   that may have one address of each kind and one service with one cluster address.
   */
  predicate Encodable(r: Rec)
  {
    r.rtype != K8sEvent ==>
      r.ptree.Some? && (r.podID != "" ==> Separable(r, HOSTIP) && Separable(r, INTERNALIP) && Separable(r, SERVICES))
  }

  /** The fields whose values appear in the text. */
  predicate IsWritten(r: Rec, f: Field)
  {
    |f.sects| == 2 || (|f.sects| == 3 && StatusOf(r, f.section) == Shown)
  }

  lemma {:induction false} PairsAreFields(fields: seq<Field>)
    ensures forall f: Field :: f in Pairs(fields) <==> f in fields && |f.sects| == 2
  {
    if fields != [] {
      var init, last := fields[..|fields| - 1], fields[|fields| - 1];
      PairsAreFields(init);
      forall f: Field ensures f in fields <==> f in init || f == last {
        assert fields == init + [last];
      }
    }
  }

  ghost predicate SoundTagged(r: Rec, w: seq<Field>)
  {
    forall f: Field :: f in w && StatusOf(r, f.section) == Shown ==> Separable(r, f)
  }

  lemma SoundTaggedNext(r: Rec, init: seq<Field>, f: Field)
    ensures SoundTagged(r, init + [f]) <==> SoundTagged(r, init) && (StatusOf(r, f.section) == Shown ==> Separable(r, f))
  {
    assert f in init + [f] && forall g: Field :: g in init + [f] <==> g in init || g == f;
  }

  lemma {:induction false} RunsHoldFields(r: Rec, w: seq<Field>)
    ensures SoundRuns(r, Runs(w)) <==> SoundTagged(r, w)
  {
    if w != [] {
      var init, f := w[..|w| - 1], w[|w| - 1];
      RunsHoldFields(r, init);
      ExtendSound(r, Runs(init), f);
      SoundTaggedNext(r, init, f);
      LastRun(w);
    }
  }

  lemma LastRun(w: seq<Field>)
    requires w != []
    ensures var init, f := w[..|w| - 1], w[|w| - 1]; w == init + [f] && Runs(w) == Extend(Runs(init), f)
  {
  }

  lemma ExtendSound(r: Rec, runs: seq<Run>, f: Field)
    ensures SoundRuns(r, Extend(runs, f)) <==> SoundRuns(r, runs) && (StatusOf(r, f.section) == Shown ==> Separable(r, f))
  {
    var runs' := Extend(runs, f);
    var n := |runs'| - 1;
    AllButLast(r, runs');
    if runs != [] && runs[|runs| - 1].section == f.section {
      AllButLast(r, runs);
      assert runs'[..n] == runs[..n];
      LastGrows(r, runs[n], f);
    } else {
      assert runs'[..n] == runs;
      assert runs'[n].fields[0] == f;
    }
  }

  lemma LastGrows(r: Rec, run: Run, f: Field)
    requires run.section == f.section
    ensures SoundRun(r, Run(f.section, run.fields + [f])) <==>
            SoundRun(r, run) && (StatusOf(r, f.section) == Shown ==> Separable(r, f))
  {
    var more := run.fields + [f];
    assert more[|run.fields|] == f;
    if SoundRun(r, Run(f.section, more)) && StatusOf(r, f.section) == Shown {
      forall i | 0 <= i < |run.fields| ensures Separable(r, run.fields[i]) {
        assert more[i] == run.fields[i];
      }
    }
  }

  lemma SoundFieldsMeans(r: Rec, fields: seq<Field>)
    ensures SoundFields(r, fields) <==> forall f: Field :: f in fields && IsWritten(r, f) ==> Separable(r, f)
  {
    PairsAreFields(fields);
    TaggedAreFields(r, fields);
    RunsHoldFields(r, Tagged(r, fields));
    if forall f: Field :: f in fields && IsWritten(r, f) ==> Separable(r, f) {
      forall f: Field | f in Tagged(r, fields) && StatusOf(r, f.section) == Shown ensures Separable(r, f) {
        assert IsWritten(r, f);
      }
    }
    if SoundFields(r, fields) {
      forall f: Field | f in fields && IsWritten(r, f) ensures Separable(r, f) {
        if |f.sects| == 2 {
          assert f in Pairs(fields);
        } else {
          assert f in Tagged(r, fields);
        }
      }
    }
  }

  predicate HarmlessKind(k: Kind)
  {
    !k.IPArrayKind? && !k.ServicesKind? && !k.PtreeKind?
  }

  predicate KindFits(e: Entry, s: Section)
  {
    (e.kind.PtreeKind? ==> s == SectProc || s == SectPProc)
    && (e.kind.IPArrayKind? ==> s == SectPod && (e.name == "hostip+" || e.name == "internalip+"))
    && (e.kind.ServicesKind? ==> s == SectPod && e.name == "services+")
  }

  ghost predicate KindsFit(es: seq<Entry>, s: Section)
  {
    forall i :: 0 <= i < |es| ==> KindFits(es[i], s)
  }

  lemma ProcKinds(netIP: Kind)
    ensures KindsFit(Entries(SectProc, netIP), SectProc)
    ensures KindsFit(Entries(SectPProc, netIP), SectPProc)
  {
  }

  lemma FileKinds(netIP: Kind)
    ensures KindsFit(Entries(SectFile, netIP), SectFile)
  {
  }

  lemma PodKinds(netIP: Kind)
    ensures KindsFit(Entries(SectPod, netIP), SectPod)
  {
  }

  lemma KindsBySection(s: Section, netIP: Kind)
    requires HarmlessKind(netIP)
    ensures KindsFit(Entries(s, netIP), s)
  {
    match s
    case SectProc => ProcKinds(netIP);
    case SectPProc => ProcKinds(netIP);
    case SectFile => FileKinds(netIP);
    case SectPod => PodKinds(netIP);
    case _ =>
  }

  lemma ExportedKindFits(f: Field, netIP: Kind)
    requires HarmlessKind(netIP) && IsExported(f, netIP) && f.section != SectNone
    ensures |f.sects| == 3 && KindFits(Entry(f.sects[2], f.kind), f.section) && f == Of3(f.section, Entry(f.sects[2], f.kind))
  {
    KindsBySection(f.section, netIP);
    InSection(f, netIP);
    assert f.sects == ["sf", Component(f.section), f.sects[2]];
  }

  lemma OthersAreHarmless(f: Field, netIP: Kind)
    requires IsExported(f, netIP) && f.section == SectNone
    ensures HarmlessKind(f.kind)
  {
  }

  lemma ExportedSound(r: Rec, f: Field, netIP: Kind)
    requires HarmlessKind(netIP) && IsExported(f, netIP) && Encodable(r) && IsWritten(r, f)
    ensures Separable(r, f)
  {
    if f.section == SectNone {
      OthersAreHarmless(f, netIP);
    } else {
      ExportedKindFits(f, netIP);
    }
  }

  lemma PodFieldWritten(r: Rec, e: Entry)
    requires r.rtype != K8sEvent && r.podID != ""
    ensures IsWritten(r, Of3(SectPod, e))
  {
  }

  lemma ProcFieldWritten(r: Rec, e: Entry)
    requires r.rtype != K8sEvent
    ensures IsWritten(r, Of3(SectProc, e))
  {
  }

  /** A record that is not `Encodable` has a field that cannot be written. */
  lemma SomeUnsound(r: Rec, table: seq<Field>, netIP: Kind)
    requires IsTable(table, netIP) && !Encodable(r)
    ensures exists f: Field :: f in table && IsWritten(r, f) && !Separable(r, f)
  {
    Listed(netIP);
    if r.ptree.None? {
      ProcFieldWritten(r, Entry("aname", PtreeKind(ProcAName)));
      assert Of3(SectProc, Entry("aname", PtreeKind(ProcAName))) in table;
    } else if !Separable(r, HOSTIP) {
      PodFieldWritten(r, Entry("hostip+", IPArrayKind));
      assert HOSTIP in table;
    } else if !Separable(r, INTERNALIP) {
      PodFieldWritten(r, Entry("internalip+", IPArrayKind));
      assert INTERNALIP in table;
    } else {
      PodFieldWritten(r, Entry("services+", ServicesKind));
      assert SERVICES in table;
    }
  }

  /** What must be met is exactly the condition on process tree, addresses and services. */
  lemma TableCondition(r: Rec, table: seq<Field>, netIP: Kind)
    requires IsTable(table, netIP) && HarmlessKind(netIP)
    ensures SoundFields(r, table) <==> Encodable(r)
  {
    SoundFieldsMeans(r, table);
    if Encodable(r) {
      forall f: Field | f in table && IsWritten(r, f) ensures Separable(r, f) {
        ExportedSound(r, f, netIP);
      }
    } else {
      SomeUnsound(r, table, netIP);
    }
  }

  // ------------------------------------------------------------------
  // The keys of the root object.

  /** The members of the root object by where their keys come from. */
  datatype KeyKind = VersionKey | PairKey | SectionName | PoliciesKey | TagsKey

  predicate IsKeyOf(key: string, k: KeyKind)
  {
    match k
    case VersionKey => key == "version"
    case PairKey => key == "type" || key == "opflags" || key == "ret" || key == "ts" || key == "endts"
    case SectionName => exists s: Section :: s != SectNone && key == SectionKey(s)
    case PoliciesKey => key == "policies"
    case TagsKey => key == "tags"
  }

  lemma KeyKinds(key: string, j: KeyKind, k: KeyKind)
    requires IsKeyOf(key, j) && IsKeyOf(key, k)
    ensures j == k
  {
    if j.SectionName? || k.SectionName? {
      var s: Section :| s != SectNone && key == SectionKey(s);
      SectionCode(s);
    }
  }

  lemma SectionCode(s: Section)
    requires s != SectNone
    ensures var key := SectionKey(s);
            key != "" && key[0] != 'v' && key != "type" && key != "opflags" && key != "ret" && key != "ts" && key != "endts"
            && key != "policies" && key != "tags"
  {
  }

  lemma PairName(e: Entry)
    requires e in PAIRS
    ensures e.name != "" && e.name[|e.name| - 1] != '+' && IsKeyOf(e.name, PairKey)
  {
  }

  lemma TwoPartKey(f: Field, last: string)
    requires f.sects == ["sf", last] && last != "" && last[|last| - 1] != '+'
    ensures f.Key() == last && f.Name() == "sf." + last && !HasSuffix(last, "+")
  {
    assert last[|last| - 1..] != "+";
    assert f.sects[1..] == [last] && [last][1..] == [];
    assert Join(f.sects, '.') == "sf" + "." + Join([last], '.');
  }

  lemma PairKeyOf(f: Field, netIP: Kind)
    requires IsExported(f, netIP) && |f.sects| == 2
    ensures IsKeyOf(f.Key(), PairKey) && f.Name() == "sf." + f.Key() && !HasSuffix(LastPart(f), "+")
  {
    PairName(Entry(f.sects[1], f.kind));
    assert f.sects == ["sf", f.sects[1]];
    TwoPartKey(f, f.sects[1]);
  }

  lemma {:induction false} PairsOrdered(fields: seq<Field>)
    requires Sorted(fields)
    ensures Sorted(Pairs(fields))
  {
    if fields != [] {
      var init, last := fields[..|fields| - 1], fields[|fields| - 1];
      PairsOrdered(init);
      PairsAreFields(init);
      var w := Pairs(init);
      forall i | 0 <= i < |w| ensures Before(w[i], last) {
        assert w[i] in w;
        var k :| 0 <= k < |init| && init[k] == w[i];
        assert Before(fields[k], fields[|fields| - 1]);
      }
    }
  }

  lemma PairKeysDistinct(r: Rec, table: seq<Field>, netIP: Kind, html: bool)
    requires IsTable(table, netIP)
    ensures DistinctKeys(Attrs(r, Pairs(table), html)) && KeysOf(Attrs(r, Pairs(table), html), PairKey)
  {
    var pairs := Pairs(table);
    PairsOrdered(table);
    PairsAreFields(table);
    forall i | 0 <= i < |pairs| ensures IsKeyOf(pairs[i].Key(), PairKey) && pairs[i].Name() == "sf." + pairs[i].Key() && |pairs[i].sects| == 2 {
      assert pairs[i] in pairs;
      PairKeyOf(pairs[i], netIP);
    }
    forall i, j | 0 <= i < j < |pairs| ensures pairs[i].Key() != pairs[j].Key() {
      assert Before(pairs[i], pairs[j]);
      LexAsymmetric(pairs[i].Name(), pairs[j].Name());
    }
  }

  ghost predicate KeysOf(ps: seq<Piece>, k: KeyKind)
  {
    forall i :: 0 <= i < |ps| ==> IsKeyOf(ps[i].key, k)
  }

  ghost predicate KeysNotOf(ps: seq<Piece>, k: KeyKind)
  {
    forall i :: 0 <= i < |ps| ==> !IsKeyOf(ps[i].key, k)
  }

  lemma {:induction false} SectionKeysOf(r: Rec, runs: seq<Run>, html: bool)
    ensures KeysOf(Sections(r, runs, html), SectionName)
  {
    if runs != [] {
      var init, run := runs[..|runs| - 1], runs[|runs| - 1];
      SectionKeysOf(r, init, html);
      if StatusOf(r, run.section) == Shown {
        assert run.section != SectNone;
        assert IsKeyOf(SectionPiece(r, run, html).key, SectionName);
      }
    }
  }

  /** Members of a kind that is not there yet can be added. */
  lemma AddKind(ps: seq<Piece>, qs: seq<Piece>, k: KeyKind)
    requires DistinctKeys(ps) && DistinctKeys(qs) && KeysNotOf(ps, k) && KeysOf(qs, k)
    ensures DistinctKeys(ps + qs)
    ensures forall l: KeyKind :: l != k && KeysNotOf(ps, l) ==> KeysNotOf(ps + qs, l)
  {
    DistinctConcat(ps, qs);
    forall l: KeyKind | l != k && KeysNotOf(ps, l) ensures KeysNotOf(ps + qs, l) {
      forall i | 0 <= i < |ps + qs| ensures !IsKeyOf((ps + qs)[i].key, l) {
        if i >= |ps| {
          assert IsKeyOf(qs[i - |ps|].key, k);
          if IsKeyOf(qs[i - |ps|].key, l) {
            KeyKinds(qs[i - |ps|].key, k, l);
          }
        }
      }
    }
  }

  ghost predicate OneKind(ps: seq<Piece>, k: KeyKind)
  {
    DistinctKeys(ps) && KeysOf(ps, k)
  }

  lemma FiveKinds(v: seq<Piece>, pairs: seq<Piece>, sections: seq<Piece>, p: seq<Piece>, t: seq<Piece>)
    requires OneKind(v, VersionKey) && OneKind(pairs, PairKey) && OneKind(sections, SectionName)
    requires OneKind(p, PoliciesKey) && OneKind(t, TagsKey)
    ensures DistinctKeys(v + pairs + sections + p + t)
  {
    AddKind([], v, VersionKey);
    assert [] + v == v;
    AddKind(v, pairs, PairKey);
    AddKind(v + pairs, sections, SectionName);
    AddKind(v + pairs + sections, p, PoliciesKey);
    AddKind(v + pairs + sections + p, t, TagsKey);
  }

  lemma TailKeys(r: Rec, html: bool)
    ensures OneKind(PoliciesMember(r, html), PoliciesKey) && OneKind(TagsMember(r, html), TagsKey)
  {
  }

  /** No key of the root object occurs twice. */
  lemma RootKeysDistinct(r: Rec, version: string, table: seq<Field>, netIP: Kind, html: bool)
    requires IsTable(table, netIP)
    ensures DistinctKeys(Body(r, version, table, html) + Tail(r, html))
  {
    var head, pairs := [VersionPiece(version)], Attrs(r, Pairs(table), html);
    var sections := Sections(r, Runs(Tagged(r, table)), html);
    PairKeysDistinct(r, table, netIP, html);
    TableIsOrdered(table, netIP);
    EachSectionOnce(r, table, html);
    SectionKeysOf(r, Runs(Tagged(r, table)), html);
    TailKeys(r, html);
    FiveKinds(head, pairs, sections, PoliciesMember(r, html), TagsMember(r, html));
    Parts(head + pairs + sections, PoliciesMember(r, html), TagsMember(r, html));
  }

  lemma Parts(a: seq<Piece>, b: seq<Piece>, c: seq<Piece>)
    ensures a + b + c == a + (b + c)
  {
  }

  // ------------------------------------------------------------------
  // The text and the tree.

  /**
   With the exported table, for every record: the encoder's text is one JSON object
   that reads back as the record's tree when the record is `Encodable` and the
   configured version is a number, and is not JSON at all when one of them is not.
   Neither the object nor any of its sections has a key twice.
   */
  lemma EncoderIsFaithful(r: Rec, version: string, table: seq<Field>, netIP: Kind, html: bool)
    requires IsTable(table, netIP) && HarmlessKind(netIP) && PlainVersion(version)
    ensures Tree(r, version, table, html).Some? <==> IsNumber(version) && Encodable(r)
    ensures ParseText(EncodedText(r, version, table, html)) == CleanOption(Tree(r, version, table, html))
    ensures DistinctKeys(Body(r, version, table, html) + Tail(r, html))
    ensures forall s: Section :: DistinctKeys(Attrs(r, OfSection(Tagged(r, table), s), html))
  {
    TableIsOrdered(table, netIP);
    TableHasNoTwins(table, netIP);
    TableCondition(r, table, netIP);
    RootKeysDistinct(r, version, table, netIP, html);
    forall s: Section ensures DistinctKeys(Attrs(r, OfSection(Tagged(r, table), s), html)) {
      SectionKeysDistinct(r, table, s, html);
    }
    Listed(netIP);
    var g := if r.rtype == K8sEvent then Of3(SectNode, Entry("id", StrKind)) else Of3(SectProc, Entry("oid", StrKind));
    assert g in table;
    OrderedTableReads(r, version, table, html, g);
  }
}
