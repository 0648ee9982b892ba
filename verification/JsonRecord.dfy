/**
 The text that the JSON encoder gives a record, as a function of the field table, and
 what a JSON reader makes of it.
 */
module JsonRecord {
  import opened Text
  import opened JsonString
  import opened Json
  import opened JsonPieces
  import opened FieldTable
  import opened JsonFields
  import C = PolicyCompiler

  // ------------------------------------------------------------------
  // What a record's text consists of.

  /** A section can be left out of the walk, passed over, or written. */
  datatype Status = Ignored | Absent | Shown

  function StatusOf(r: Rec, s: Section): Status
  {
    if r.rtype == K8sEvent then
      if s == SectK8sEvt || s == SectNode || s == SectMeta then Shown else Ignored
    else
      match s
      case SectProc => Shown
      case SectPProc => ShownIf(r.parentPID != 0)
      case SectNet => ShownIf(r.rtype == NetFlow)
      case SectFile => ShownIf(r.rtype == FileFlow || r.rtype == FileEvent)
      case SectFlow => ShownIf(r.rtype == FileFlow || r.rtype == NetFlow)
      case SectCont => ShownIf(r.contID != "")
      case SectPod => ShownIf(r.podID != "")
      case SectNode => Shown
      case SectMeta => Shown
      case SectK8sEvt => Ignored
      case SectNone => Ignored
  }

  function ShownIf(b: bool): Status
  {
    if b then Shown else Absent
  }

  function SectionKey(s: Section): Plain
  {
    match s
    case SectNone => ""
    case SectProc => "proc"
    case SectPProc => "pproc"
    case SectFile => "file"
    case SectNet => "net"
    case SectFlow => "flow"
    case SectCont => "container"
    case SectNode => "node"
    case SectMeta => "meta"
    case SectPod => "pod"
    case SectK8sEvt => "k8s"
  }

  /** The fields of three parts whose sections take part in the walk. */
  function Tagged(r: Rec, fields: seq<Field>): (w: seq<Field>)
  {
    if fields == [] then [] else
      var f := fields[|fields| - 1];
      Tagged(r, fields[..|fields| - 1])
      + if |f.sects| == 3 && StatusOf(r, f.section) != Ignored then [f] else []
  }

  function Attr(r: Rec, f: Field, html: bool): Piece
  {
    Of(f.Key(), FieldValue(r, f, html))
  }

  function Attrs(r: Rec, fields: seq<Field>, html: bool): (ps: seq<Piece>)
    ensures |ps| == |fields| && forall i :: 0 <= i < |ps| ==> ps[i] == Attr(r, fields[i], html)
  {
    seq(|fields|, i requires 0 <= i < |fields| => Attr(r, fields[i], html))
  }

  /** The fields of two parts. */
  function Pairs(fields: seq<Field>): (ps: seq<Field>)
  {
    if fields == [] then [] else
      var f := fields[|fields| - 1];
      Pairs(fields[..|fields| - 1]) + if |f.sects| == 2 then [f] else []
  }

  function SectionPiece(r: Rec, run: Run, html: bool): Piece
  {
    var attrs := Attrs(r, run.fields, html);
    Piece(SectionKey(run.section), ObjectText(attrs, html), ObjectValue(attrs))
  }

  /** The objects of the sections shown. */
  function Sections(r: Rec, runs: seq<Run>, html: bool): seq<Piece>
  {
    if runs == [] then [] else
      var run := runs[|runs| - 1];
      Sections(r, runs[..|runs| - 1], html)
      + if StatusOf(r, run.section) == Shown then [SectionPiece(r, run, html)] else []
  }

  /** The schema version is configured as text, and written as it is. */
  function VersionPiece(version: string): Piece
  {
    Piece("version", version, if IsNumber(version) then Some(JNumber(version)) else None)
  }

  /** The text consists of characters that numbers are made of, or starts like no value at all. */
  predicate PlainVersion(version: string)
  {
    NumberChars(version) || !StartsValue(SkipSpace(version))
  }

  predicate StartsValue(s: string)
  {
    s != "" && (IsNumberChar(s[0]) || s[0] == '"' || s[0] == '[' || s[0] == '{' || s[0] == 't' || s[0] == 'f' || s[0] == 'n')
  }

  function Head(r: Rec, version: string, pairs: seq<Field>, html: bool): seq<Piece>
  {
    [VersionPiece(version)] + Attrs(r, pairs, html)
  }

  function PolicyObject(info: C.RuleInfo): Json
  {
    JObject([Member("id", JString(info.name)), Member("desc", JString(info.desc)), Member("priority", Int(info.priority))])
  }

  function Policies(infos: seq<C.RuleInfo>): (es: seq<Json>)
    ensures |es| == |infos| && forall i :: 0 <= i < |infos| ==> es[i] == PolicyObject(infos[i])
  {
    seq(|infos|, i requires 0 <= i < |infos| => PolicyObject(infos[i]))
  }

  function TagsOf(tags: seq<C.Tag>): seq<string>
  {
    if tags == [] then [] else
      TagsOf(tags[..|tags| - 1])
      + match tags[|tags| - 1]
        case OneTag(tag) => [tag]
        case TagList(ts) => ts
  }

  function RuleTags(infos: seq<C.RuleInfo>): seq<string>
  {
    if infos == [] then [] else RuleTags(infos[..|infos| - 1]) + TagsOf(infos[|infos| - 1].tags)
  }

  function PoliciesMember(r: Rec, html: bool): seq<Piece>
  {
    if r.rules == [] then [] else [Of("policies", Printed(JArray(Policies(r.rules)), html))]
  }

  function TagsMember(r: Rec, html: bool): seq<Piece>
  {
    var tags := r.tags + RuleTags(r.rules);
    if tags == [] then [] else [Of("tags", Printed(JArray(Strings(tags)), html))]
  }

  /** The members that follow the sections. */
  function Tail(r: Rec, html: bool): seq<Piece>
  {
    PoliciesMember(r, html) + TagsMember(r, html)
  }

  /** Members each preceded by a comma. */
  function Led(ps: seq<Piece>, html: bool): string
  {
    if ps == [] then "" else Led(ps[..|ps| - 1], html) + ("," + PieceText(ps[|ps| - 1], html))
  }

  predicate LastShown(r: Rec, runs: seq<Run>)
  {
    runs != [] && StatusOf(r, runs[|runs| - 1].section) == Shown
  }

  /** All members before the policies. */
  function Body(r: Rec, version: string, fields: seq<Field>, html: bool): seq<Piece>
  {
    Head(r, version, Pairs(fields), html) + Sections(r, Runs(Tagged(r, fields)), html)
  }

  /** The last brace but one closes the last section, if that is open. */
  function RecordText(body: seq<Piece>, tail: seq<Piece>, open: bool, html: bool): string
  {
    var end := Led(tail, html) + "}";
    "{" + if open then Joined(body, html) + end else Terminated(body, html) + ("}" + end)
  }

  function EncodedText(r: Rec, version: string, fields: seq<Field>, html: bool): string
  {
    RecordText(Body(r, version, fields, html), Tail(r, html), LastShown(r, Runs(Tagged(r, fields))), html)
  }

  // ------------------------------------------------------------------
  // What a reader makes of it.

  lemma AttrsRender(r: Rec, fields: seq<Field>, html: bool)
    ensures AllRender(Attrs(r, fields, html), html)
    ensures Readable(Attrs(r, fields, html)) <==> forall i :: 0 <= i < |fields| ==> Separable(r, fields[i])
  {
    var ps := Attrs(r, fields, html);
    forall i | 0 <= i < |fields|
      ensures Renders(ps[i].text, ps[i].value, html)
      ensures ps[i].value.Some? <==> Separable(r, fields[i])
    {
      FieldRenders(r, fields[i], html);
    }
  }

  /** Every field of the run can be written as JSON. */
  predicate SoundRun(r: Rec, run: Run)
  {
    StatusOf(r, run.section) == Shown ==> forall i :: 0 <= i < |run.fields| ==> Separable(r, run.fields[i])
  }

  predicate SoundRuns(r: Rec, runs: seq<Run>)
  {
    forall i :: 0 <= i < |runs| ==> SoundRun(r, runs[i])
  }

  lemma {:induction false} SectionsRender(r: Rec, runs: seq<Run>, html: bool)
    requires forall i :: 0 <= i < |runs| ==> runs[i].fields != []
    ensures AllRender(Sections(r, runs, html), html)
    ensures Readable(Sections(r, runs, html)) <==> SoundRuns(r, runs)
  {
    if runs != [] {
      var init, run := runs[..|runs| - 1], runs[|runs| - 1];
      SectionsRender(r, init, html);
      AllButLast(r, runs);
      if StatusOf(r, run.section) == Shown {
        SectionRenders(r, run, html);
        RenderConcat(Sections(r, init, html), [SectionPiece(r, run, html)], html);
        ReadableConcat(Sections(r, init, html), [SectionPiece(r, run, html)]);
      } else {
        assert Sections(r, runs, html) == Sections(r, init, html);
      }
    }
  }

  lemma SectionRenders(r: Rec, run: Run, html: bool)
    requires run.fields != [] && StatusOf(r, run.section) == Shown
    ensures AllRender([SectionPiece(r, run, html)], html)
    ensures Readable([SectionPiece(r, run, html)]) <==> SoundRun(r, run)
  {
    AttrsRender(r, run.fields, html);
    ObjectRenders(Attrs(r, run.fields, html), html);
    assert [SectionPiece(r, run, html)][0] == SectionPiece(r, run, html);
  }

  lemma AllButLast(r: Rec, runs: seq<Run>)
    requires runs != []
    ensures SoundRuns(r, runs) <==> SoundRun(r, runs[|runs| - 1]) && SoundRuns(r, runs[..|runs| - 1])
  {
    var init := runs[..|runs| - 1];
    if SoundRun(r, runs[|runs| - 1]) && SoundRuns(r, init) {
      forall i | 0 <= i < |runs| ensures SoundRun(r, runs[i]) {
        if i < |init| {
          assert runs[i] == init[i];
        }
      }
    }
  }

  lemma RenderConcat(ps: seq<Piece>, qs: seq<Piece>, html: bool)
    requires AllRender(ps, html) && AllRender(qs, html)
    ensures AllRender(ps + qs, html)
  {
  }

  lemma ReadableConcat(ps: seq<Piece>, qs: seq<Piece>)
    ensures Readable(ps + qs) <==> Readable(ps) && Readable(qs)
  {
    if Readable(ps + qs) {
      forall i | 0 <= i < |ps| ensures ps[i].value.Some? {
        assert ps[i] == (ps + qs)[i];
      }
      forall i | 0 <= i < |qs| ensures qs[i].value.Some? {
        assert qs[i] == (ps + qs)[|ps| + i];
      }
    }
  }

  lemma PoliciesWellFormed(infos: seq<C.RuleInfo>)
    ensures WellFormed(JArray(Policies(infos)))
  {
    forall i | 0 <= i < |infos| ensures WellFormed(Policies(infos)[i]) {
      IntIsNumber(infos[i].priority);
    }
  }

  lemma TailRenders(r: Rec, html: bool)
    ensures AllRender(Tail(r, html), html) && Readable(Tail(r, html))
  {
    var tags := r.tags + RuleTags(r.rules);
    PoliciesWellFormed(r.rules);
    PrintedRenders("policies", JArray(Policies(r.rules)), html);
    PrintedRenders("tags", JArray(Strings(tags)), html);
  }

  /** Every field written can be written as JSON. */
  predicate SoundFields(r: Rec, fields: seq<Field>)
  {
    (forall i :: 0 <= i < |Pairs(fields)| ==> Separable(r, Pairs(fields)[i]))
    && SoundRuns(r, Runs(Tagged(r, fields)))
  }

  lemma NoValue(s: string)
    requires !StartsValue(SkipSpace(s))
    ensures ParseValue(s) == None
  {
  }

  lemma {:induction false} SkipSpaceBefore(s: string, rest: string)
    requires rest != "" && !IsSpace(rest[0])
    ensures SkipSpace(s + rest) == SkipSpace(s) + rest
  {
    if s == "" {
      assert s + rest == rest;
    } else if IsSpace(s[0]) {
      SkipSpaceBefore(s[1..], rest);
      assert (s + rest)[1..] == s[1..] + rest;
    }
  }

  /** The version reads as a number if it is one, and as nothing otherwise. */
  lemma VersionRenders(version: string, html: bool)
    requires PlainVersion(version)
    ensures Renders(version, VersionPiece(version).value, html)
  {
    if !IsNumber(version) {
      forall rest | Separates(rest) ensures StuckAt(version, rest) {
        SkipSpaceBefore(version, rest);
        if NumberChars(version) {
          NotANumber(version, rest);
        } else {
          assert !StartsValue(SkipSpace(version) + rest);
          NoValue(version + rest);
        }
      }
    }
  }

  lemma NotANumber(version: string, rest: string)
    requires NumberChars(version) && !IsNumber(version) && Separates(rest)
    ensures ParseValue(version + rest) == None
  {
    var t := version + rest;
    NumberRunStops(version, rest);
    assert t[..|version|] == version;
    assert t[0] == if version == "" then rest[0] else version[0];
    assert SkipSpace(t) == t && ParseValue(t) == ParseNumber(t);
  }

  lemma HeadRenders(r: Rec, version: string, pairs: seq<Field>, html: bool)
    requires PlainVersion(version)
    ensures AllRender(Head(r, version, pairs, html), html)
    ensures Readable(Head(r, version, pairs, html)) <==> IsNumber(version) && forall i :: 0 <= i < |pairs| ==> Separable(r, pairs[i])
  {
    AttrsRender(r, pairs, html);
    VersionRenders(version, html);
    ReadableConcat([VersionPiece(version)], Attrs(r, pairs, html));
    assert Readable([VersionPiece(version)]) <==> [VersionPiece(version)][0].value.Some?;
  }

  lemma BodyRenders(r: Rec, version: string, fields: seq<Field>, html: bool)
    requires PlainVersion(version)
    ensures AllRender(Body(r, version, fields, html), html)
    ensures Readable(Body(r, version, fields, html)) <==> IsNumber(version) && SoundFields(r, fields)
  {
    var runs := Runs(Tagged(r, fields));
    HeadRenders(r, version, Pairs(fields), html);
    SectionsRender(r, runs, html);
    RenderConcat(Head(r, version, Pairs(fields), html), Sections(r, runs, html), html);
    ReadableConcat(Head(r, version, Pairs(fields), html), Sections(r, runs, html));
  }

  /** The value a record stands for. */
  function Tree(r: Rec, version: string, fields: seq<Field>, html: bool): Option<Json>
  {
    ObjectValue(Body(r, version, fields, html) + Tail(r, html))
  }

  function CleanOption(v: Option<Json>): Option<Json>
  {
    match v
    case Some(j) => Some(Clean(j))
    case None => None
  }

  lemma {:induction false} JoinedLed(ps: seq<Piece>, qs: seq<Piece>, html: bool)
    requires ps != []
    ensures Joined(ps + qs, html) == Joined(ps, html) + Led(qs, html)
  {
    if qs == [] {
      assert ps + qs == ps && Joined(ps, html) + "" == Joined(ps, html);
    } else {
      var init, q := qs[..|qs| - 1], qs[|qs| - 1];
      assert ps + qs == (ps + init) + [q];
      JoinedLed(ps, init, html);
      JoinedAppend(ps + init, q, html);
      Associate(Joined(ps, html), Led(init, html), "," + PieceText(q, html));
    }
  }

  /** A record stands for a value exactly when the version and each field written do. */
  lemma TreeExists(r: Rec, version: string, fields: seq<Field>, html: bool)
    requires PlainVersion(version)
    ensures AllRender(Body(r, version, fields, html), html) && AllRender(Tail(r, html), html)
    ensures Readable(Body(r, version, fields, html) + Tail(r, html)) <==> IsNumber(version) && SoundFields(r, fields)
    ensures Tree(r, version, fields, html).Some? <==> IsNumber(version) && SoundFields(r, fields)
  {
    BodyRenders(r, version, fields, html);
    TailRenders(r, html);
    ReadableConcat(Body(r, version, fields, html), Tail(r, html));
  }

  /**
   The text of a record is one JSON object with exactly the members meant, or it is
   no JSON at all: the former precisely when the version is a number, every field
   written has its condition met, and the last section of the walk is one that is shown.
   */
  lemma EncodedTextReads(r: Rec, version: string, fields: seq<Field>, html: bool)
    requires PlainVersion(version)
    ensures Tree(r, version, fields, html).Some? <==> IsNumber(version) && SoundFields(r, fields)
    ensures ParseText(EncodedText(r, version, fields, html)) ==
            if LastShown(r, Runs(Tagged(r, fields))) then CleanOption(Tree(r, version, fields, html)) else None
  {
    TreeExists(r, version, fields, html);
    RecordTextReads(Body(r, version, fields, html), Tail(r, html), LastShown(r, Runs(Tagged(r, fields))), html);
  }

  lemma RecordTextReads(body: seq<Piece>, tail: seq<Piece>, open: bool, html: bool)
    requires body != [] && AllRender(body, html) && AllRender(tail, html)
    ensures ParseText(RecordText(body, tail, open, html)) ==
            if open && Readable(body + tail) then Some(Clean(JObject(Members(body + tail)))) else None
  {
    if open {
      FinishedText(body, tail, html);
    } else {
      UnfinishedText(body, html, "}" + (Led(tail, html) + "}"));
    }
  }

  lemma FinishedText(body: seq<Piece>, tail: seq<Piece>, html: bool)
    requires body != [] && AllRender(body, html) && AllRender(tail, html)
    ensures ParseText("{" + (Joined(body, html) + (Led(tail, html) + "}"))) ==
            if Readable(body + tail) then Some(Clean(JObject(Members(body + tail)))) else None
  {
    var all := body + tail;
    RenderConcat(body, tail, html);
    JoinedLed(body, tail, html);
    Associate(Joined(body, html), Led(tail, html), "}");
    ReadObject(all, html, "");
    assert ObjectText(all, html) + "" == ObjectText(all, html);
  }

  lemma UnfinishedText(ps: seq<Piece>, html: bool, rest: string)
    requires ps != [] && AllRender(ps, html) && rest != "" && rest[0] == '}'
    ensures ParseText("{" + (Terminated(ps, html) + rest)) == None
  {
    var text := Terminated(ps, html) + rest;
    assert SkipSpace(rest) == rest && ParseMembers(rest) == None;
    ReadTerminated(ps, html, rest);
    ObjectStep(text);
    TerminatedStart(ps, html, rest);
    assert SkipSpace(text) == text;
  }

  lemma TerminatedStart(ps: seq<Piece>, html: bool, rest: string)
    requires ps != []
    ensures var t := Terminated(ps, html) + rest; t != "" && t[0] == '"'
  {
  }
}
