/**
 The JSON encoder: it walks the field table once, and opens and closes the object of
 each section as it goes.
 */
module JsonEncoder {
  import opened Text
  import opened JsonString
  import opened Json
  import opened JsonPieces
  import opened FieldTable
  import opened JsonFields
  import opened JsonRecord
  import C = PolicyCompiler

  // ------------------------------------------------------------------
  // Lists, one element at a time.

  function Upto(es: seq<Json>, k: nat, html: bool): string
    requires k <= |es|
  {
    PrintElements(es[..k], html) + if 0 < k < |es| then "," else ""
  }

  /** `b` and a list of which `k` elements are written. */
  function ListSoFar(b: string, es: seq<Json>, k: nat, html: bool): string
    requires k <= |es|
  {
    b + ("[" + Upto(es, k, html))
  }

  lemma ListOpens(b: string, es: seq<Json>, html: bool)
    ensures ListSoFar(b, es, 0, html) == b + "["
  {
  }

  lemma UptoNext(es: seq<Json>, k: nat, html: bool)
    requires k < |es|
    ensures PrintElements(es[..k + 1], html) == Upto(es, k, html) + Print(es[k], html)
  {
    assert es[..k + 1] == es[..k] + [es[k]];
    ElementsAppend(es[..k], es[k], html);
    if k == 0 {
      assert "" + "" + Print(es[k], html) == Print(es[k], html);
    }
  }

  lemma OpenList(b: string, u: string, p: string, c: string)
    ensures b + ("[" + (u + p + c)) == b + ("[" + u) + p + c
  {
    Associate(u, p, c);
    RegroupInner(b, "[", u, p + c);
    Associate(b + ("[" + u), p, c);
  }

  lemma ListNext(b: string, es: seq<Json>, k: nat, html: bool)
    requires k < |es|
    ensures ListSoFar(b, es, k + 1, html) ==
            ListSoFar(b, es, k, html) + Print(es[k], html) + if k + 1 < |es| then "," else ""
  {
    UptoNext(es, k, html);
    OpenList(b, Upto(es, k, html), Print(es[k], html), if k + 1 < |es| then "," else "");
  }

  lemma ListDone(b: string, es: seq<Json>, html: bool)
    ensures ListSoFar(b, es, |es|, html) + "]" == b + Print(JArray(es), html)
  {
    assert es[..|es|] == es;
    RegroupInner(b, "[", PrintElements(es, html), "]");
  }

  /** `b` and an object of which `k` members are written. */
  function ObjectSoFar(b: string, ps: seq<Piece>, k: nat, html: bool): string
    requires k <= |ps|
  {
    b + ("{" + Joined(ps[..k], html))
  }

  lemma ObjectNext(b: string, ps: seq<Piece>, k: nat, html: bool)
    requires k < |ps|
    ensures ObjectSoFar(b, ps, k + 1, html) ==
            if k == 0 then b + "{" + PieceText(ps[k], html) else ObjectSoFar(b, ps, k, html) + "," + PieceText(ps[k], html)
  {
    assert ps[..k + 1] == ps[..k] + [ps[k]];
    if k == 0 {
      assert ps[..1] == [ps[0]];
      Associate(b, "{", PieceText(ps[0], html));
    } else {
      JoinedAppend(ps[..k], ps[k], html);
      RegroupInner(b, "{", Joined(ps[..k], html), "," + PieceText(ps[k], html));
      Associate(ObjectSoFar(b, ps, k, html), ",", PieceText(ps[k], html));
    }
  }

  lemma ObjectDone(b: string, ps: seq<Piece>, html: bool)
    ensures ObjectSoFar(b, ps, |ps|, html) + "}" == b + ObjectText(ps, html)
  {
    assert ps[..|ps|] == ps;
    RegroupInner(b, "{", Joined(ps, html), "}");
  }

  /** A member whose key is written without escaping. */
  lemma RawMember(b: string, p: Piece, html: bool)
    requires forall c: char :: c in p.key ==> IsPlain(c, true)
    ensures b + "\"" + p.key + "\":" + p.text == b + PieceText(p, html)
  {
    PlainQuote(p.key, html);
    var q := "\"" + p.key;
    assert Quote(p.key, html) == q + "\"";
    assert b + "\"" + p.key == b + q;
    assert b + q + "\":" + p.text == b + (q + "\"" + (":" + p.text));
  }

  // ------------------------------------------------------------------
  // The walk over the table.

  function Closed(runs: seq<Run>): seq<Run>
  {
    if runs == [] then [] else runs[..|runs| - 1]
  }

  function OpenText(r: Rec, runs: seq<Run>, html: bool): string
  {
    if LastShown(r, runs) then
      var run := runs[|runs| - 1];
      Quote(SectionKey(run.section), html) + (":" + ("{" + Joined(Attrs(r, run.fields, html), html)))
    else ""
  }

  /** The text after the runs so far: complete members, each with a comma, and the open section. */
  function SoFar(r: Rec, head: seq<Piece>, runs: seq<Run>, html: bool): string
  {
    "{" + (Terminated(head + Sections(r, Closed(runs), html), html) + OpenText(r, runs, html))
  }

  /** `SoFar` once the open section is closed. */
  function Settled(r: Rec, head: seq<Piece>, runs: seq<Run>, html: bool): string
  {
    if LastShown(r, runs) then SoFar(r, head, runs, html) + "}," else SoFar(r, head, runs, html)
  }

  lemma CloseSection(r: Rec, head: seq<Piece>, runs: seq<Run>, html: bool)
    ensures Settled(r, head, runs, html) == "{" + Terminated(head + Sections(r, runs, html), html)
  {
    var done := head + Sections(r, Closed(runs), html);
    if LastShown(r, runs) {
      var run := runs[|runs| - 1];
      var p := SectionPiece(r, run, html);
      assert head + Sections(r, runs, html) == done + [p];
      TerminatedAppend(done, p, html);
      OpenAndClose(r, runs, html);
      CloseText(Terminated(done, html), OpenText(r, runs, html), PieceText(p, html));
    } else {
      assert Sections(r, runs, html) == Sections(r, Closed(runs), html);
      assert Terminated(done, html) + "" == Terminated(done, html);
    }
  }

  lemma OpenAndClose(r: Rec, runs: seq<Run>, html: bool)
    requires LastShown(r, runs)
    ensures OpenText(r, runs, html) + "}" == PieceText(SectionPiece(r, runs[|runs| - 1], html), html)
  {
    var run := runs[|runs| - 1];
    var body := Joined(Attrs(r, run.fields, html), html);
    RegroupInner(Quote(SectionKey(run.section), html), ":", "{" + body, "}");
    Associate("{", body, "}");
  }

  lemma CloseText(t: string, open: string, p: string)
    requires open + "}" == p
    ensures ("{" + (t + open)) + "}," == "{" + (t + (p + ","))
  {
    RegroupInner("{", t, open, "},");
    assert open + "}," == (open + "}") + ",";
  }

  /** A field of another section than the last one. */
  lemma StartSection(r: Rec, head: seq<Piece>, runs: seq<Run>, f: Field, html: bool)
    requires runs != [] ==> runs[|runs| - 1].section != f.section
    ensures SoFar(r, head, runs + [Run(f.section, [f])], html) ==
            if StatusOf(r, f.section) == Shown then
              Settled(r, head, runs, html) + "\"" + SectionKey(f.section) + "\":{" + PieceText(Attr(r, f, html), html)
            else Settled(r, head, runs, html)
  {
    var runs' := runs + [Run(f.section, [f])];
    CloseSection(r, head, runs, html);
    assert Closed(runs') == runs;
    var t := Terminated(head + Sections(r, runs, html), html);
    if StatusOf(r, f.section) == Shown {
      var attr := Attr(r, f, html);
      assert Attrs(r, [f], html) == [attr];
      OpenedText(t, SectionKey(f.section), PieceText(attr, html), html);
    } else {
      assert t + "" == t;
    }
  }

  lemma OpenedText(t: string, key: Plain, attr: string, html: bool)
    ensures "{" + t + "\"" + key + "\":{" + attr == "{" + (t + (Quote(key, html) + (":" + ("{" + attr))))
  {
    PlainQuote(key, html);
    var start := "{" + t;
    var q := "\"" + key;
    assert Quote(key, html) == q + "\"";
    assert start + "\"" + key == start + q;
    assert start + q + "\":{" + attr == start + (q + "\"" + (":" + ("{" + attr)));
    Associate("{", t, q + "\"" + (":" + ("{" + attr)));
  }

  /** A field of the section that was written last. */
  lemma ExtendSection(r: Rec, head: seq<Piece>, runs: seq<Run>, f: Field, html: bool)
    requires runs != [] && runs[|runs| - 1].section == f.section && runs[|runs| - 1].fields != []
    ensures var run := runs[|runs| - 1];
            SoFar(r, head, runs[..|runs| - 1] + [Run(f.section, run.fields + [f])], html) ==
            if StatusOf(r, f.section) == Shown then SoFar(r, head, runs, html) + "," + PieceText(Attr(r, f, html), html)
            else SoFar(r, head, runs, html)
  {
    var run := runs[|runs| - 1];
    var runs' := runs[..|runs| - 1] + [Run(f.section, run.fields + [f])];
    assert Closed(runs') == Closed(runs);
    if StatusOf(r, f.section) == Shown {
      var attrs, attr := Attrs(r, run.fields, html), Attr(r, f, html);
      assert Attrs(r, run.fields + [f], html) == attrs + [attr];
      JoinedAppend(attrs, attr, html);
      var t := Terminated(head + Sections(r, Closed(runs), html), html);
      ExtendedText(t, Quote(SectionKey(f.section), html), Joined(attrs, html), PieceText(attr, html));
    }
  }

  lemma ExtendedText(t: string, key: string, attrs: string, attr: string)
    ensures "{" + (t + (key + (":" + ("{" + attrs)))) + "," + attr == "{" + (t + (key + (":" + ("{" + (attrs + ("," + attr))))))
  {
    Associate("{" + (t + (key + (":" + ("{" + attrs)))), ",", attr);
    RegroupInner("{", t, key + (":" + ("{" + attrs)), "," + attr);
    RegroupInner(key, ":", "{" + attrs, "," + attr);
    Associate("{", attrs, "," + attr);
  }

  /** The unconditional brace after the walk. */
  lemma EndWalk(r: Rec, head: seq<Piece>, runs: seq<Run>, html: bool)
    ensures SoFar(r, head, runs, html) + "}" ==
            var body := head + Sections(r, runs, html);
            "{" + if LastShown(r, runs) then Joined(body, html) else Terminated(body, html) + "}"
  {
    var done := head + Sections(r, Closed(runs), html);
    if LastShown(r, runs) {
      var p := SectionPiece(r, runs[|runs| - 1], html);
      assert head + Sections(r, runs, html) == done + [p];
      JoinedAppend(done, p, html);
      OpenAndClose(r, runs, html);
      EndText(Terminated(done, html), OpenText(r, runs, html), PieceText(p, html));
    } else {
      assert Sections(r, runs, html) == Sections(r, Closed(runs), html);
      EndText(Terminated(done, html), "", "}");
    }
  }

  lemma EndText(t: string, open: string, p: string)
    requires open + "}" == p
    ensures ("{" + (t + open)) + "}" == "{" + (t + p)
  {
    RegroupInner("{", t, open, "}");
  }

  // ------------------------------------------------------------------
  // The encoder.

  lemma PairNext(r: Rec, version: string, pairs: seq<Field>, f: Field, html: bool)
    ensures SoFar(r, Head(r, version, pairs + [f], html), [], html) ==
            SoFar(r, Head(r, version, pairs, html), [], html) + PieceText(Attr(r, f, html), html) + ","
  {
    var head, attr := Head(r, version, pairs, html), Attr(r, f, html);
    assert Attrs(r, pairs + [f], html) == Attrs(r, pairs, html) + [attr];
    assert Head(r, version, pairs + [f], html) + [] == head + [attr] && head + [] == head;
    TerminatedAppend(head, attr, html);
    var t := Terminated(head, html);
    assert t + "" == t && t + (PieceText(attr, html) + ",") + "" == t + (PieceText(attr, html) + ",");
    Associate("{", t, PieceText(attr, html) + ",");
    Associate("{" + t, PieceText(attr, html), ",");
  }

  lemma HeadOpens(r: Rec, version: string, html: bool)
    ensures SoFar(r, Head(r, version, [], html), [], html) == "{\"version\":" + version + ","
  {
    var p := VersionPiece(version);
    assert Attrs(r, [], html) == [];
    assert Head(r, version, [], html) + [] == [] + [p];
    TerminatedAppend([], p, html);
    VersionText(p, html);
  }

  lemma VersionText(p: Piece, html: bool)
    requires p.key == "version"
    ensures "{" + (("" + (PieceText(p, html) + ",")) + "") == "{\"version\":" + p.text + ","
  {
    RawMember("{", p, html);
    assert "{" + "\"" + "version" + "\":" == "{\"version\":";
    Associate("{", PieceText(p, html), ",");
    assert ("" + (PieceText(p, html) + ",")) + "" == PieceText(p, html) + ",";
  }

  lemma PrefixStep(r: Rec, fields: seq<Field>, k: nat)
    requires k < |fields|
    ensures Pairs(fields[..k + 1]) == Pairs(fields[..k]) + if |fields[k].sects| == 2 then [fields[k]] else []
    ensures Tagged(r, fields[..k + 1]) ==
            Tagged(r, fields[..k]) + if |fields[k].sects| == 3 && StatusOf(r, fields[k].section) != Ignored then [fields[k]] else []
  {
    assert fields[..k + 1][..k] == fields[..k];
  }

  lemma RunStep(fields: seq<Field>, f: Field)
    ensures Runs(fields + [f]) == Extend(Runs(fields), f)
  {
    assert (fields + [f])[..|fields|] == fields;
  }

  /** Nothing tagged comes before a field of two parts. */
  lemma {:induction false} NothingTagged(r: Rec, fields: seq<Field>)
    requires forall i :: 0 <= i < |fields| ==> |fields[i].sects| <= 2
    ensures Tagged(r, fields) == []
  {
    if fields != [] {
      NothingTagged(r, fields[..|fields| - 1]);
    }
  }

  lemma SortedPrefix(r: Rec, fields: seq<Field>, k: nat)
    requires Sorted(fields) && k < |fields| && |fields[k].sects| == 2
    ensures Tagged(r, fields[..k]) == []
  {
    forall i | 0 <= i < k ensures |fields[..k][i].sects| <= 2 {
      assert Before(fields[i], fields[k]);
    }
    NothingTagged(r, fields[..k]);
  }

  /** The text after `k` fields. */
  function Progress(r: Rec, version: string, fields: seq<Field>, html: bool): string
  {
    SoFar(r, Head(r, version, Pairs(fields), html), Runs(Tagged(r, fields)), html)
  }

  function StateOf(runs: seq<Run>): Option<Section>
  {
    if runs == [] then None else Some(runs[|runs| - 1].section)
  }

  function PolicyPieces(info: C.RuleInfo, html: bool): (ps: seq<Piece>)
  {
    [Of("id", Printed(JString(info.name), html)),
     Of("desc", Printed(JString(info.desc), html)),
     Of("priority", Printed(Int(info.priority), html))]
  }

  /** Members with their texts. */
  function PiecesOf(ms: seq<Member>, html: bool): (ps: seq<Piece>)
    ensures |ps| == |ms| && forall i :: 0 <= i < |ms| ==> ps[i] == Of(ms[i].key, Printed(ms[i].value, html))
  {
    seq(|ms|, i requires 0 <= i < |ms| => Of(ms[i].key, Printed(ms[i].value, html)))
  }

  lemma PiecesPrint(ms: seq<Member>, html: bool)
    requires forall i :: 0 <= i < |ms| ==> WellFormed(ms[i].value)
    ensures ObjectText(PiecesOf(ms, html), html) == Print(JObject(ms), html)
  {
    var ps := PiecesOf(ms, html);
    forall i | 0 <= i < |ps| ensures Renders(ps[i].text, ps[i].value, html) {
      PrintedRenders(ms[i].key, ms[i].value, html);
    }
    JoinedPrints(ps, html);
    assert Members(ps) == ms;
    Associate("{", PrintMembers(ms, html), "}");
  }

  lemma PolicyPrints(info: C.RuleInfo, html: bool)
    ensures ObjectText(PolicyPieces(info, html), html) == Print(PolicyObject(info), html)
  {
    var ms := PolicyObject(info).members;
    IntIsNumber(info.priority);
    PiecesPrint(ms, html);
    assert PolicyPieces(info, html) == PiecesOf(ms, html);
  }

  /** A member written as one constant with its key, and its value. */
  lemma LedMember(b: string, lead: string, raw: string, p: Piece, html: bool)
    requires forall c: char :: c in p.key ==> IsPlain(c, true)
    requires raw == lead + "\"" + p.key + "\":"
    ensures b + raw + p.text == b + lead + PieceText(p, html)
  {
    RawMember(b + lead, p, html);
    assert b + lead + "\"" + p.key + "\":" == b + (lead + "\"" + p.key + "\":");
  }

  predicate PlainKey(p: Piece)
  {
    forall c: char :: c in p.key ==> IsPlain(c, true)
  }

  lemma RawNext(b: string, ps: seq<Piece>, k: nat, raw: string, html: bool)
    requires k < |ps| && PlainKey(ps[k])
    requires raw == (if k == 0 then "{" else ",") + "\"" + ps[k].key + "\":"
    ensures ObjectSoFar(b, ps, k + 1, html) == (if k == 0 then b else ObjectSoFar(b, ps, k, html)) + raw + ps[k].text
  {
    ObjectNext(b, ps, k, html);
    if k == 0 {
      LedMember(b, "{", raw, ps[k], html);
    } else {
      LedMember(ObjectSoFar(b, ps, k, html), ",", raw, ps[k], html);
    }
  }

  lemma ThreeMembers(b: string, ps: seq<Piece>, raw: seq<string>, html: bool)
    requires |ps| == |raw| == 3 && forall k :: 0 <= k < 3 ==> PlainKey(ps[k])
    requires raw[0] == "{" + "\"" + ps[0].key + "\":"
    requires raw[1] == "," + "\"" + ps[1].key + "\":"
    requires raw[2] == "," + "\"" + ps[2].key + "\":"
    ensures b + raw[0] + ps[0].text + raw[1] + ps[1].text + raw[2] + ps[2].text + "}" == b + ObjectText(ps, html)
  {
    RawNext(b, ps, 0, raw[0], html);
    RawNext(b, ps, 1, raw[1], html);
    RawNext(b, ps, 2, raw[2], html);
    ObjectDone(b, ps, html);
  }

  lemma PolicyKeys()
    ensures "{\"id\":" == "{" + "\"" + "id" + "\":"
    ensures ",\"desc\":" == "," + "\"" + "desc" + "\":"
    ensures ",\"priority\":" == "," + "\"" + "priority" + "\":"
  {
  }

  lemma PolicyText(b: string, info: C.RuleInfo, html: bool)
    ensures b + "{\"id\":" + Quote(info.name, html) + ",\"desc\":" + Quote(info.desc, html)
              + ",\"priority\":" + FormatInt(info.priority) + "}" == b + Print(PolicyObject(info), html)
  {
    var ps := PolicyPieces(info, html);
    PolicyPrints(info, html);
    PolicyKeys();
    ThreeMembers(b, ps, ["{\"id\":", ",\"desc\":", ",\"priority\":"], html);
  }

  lemma LedOne(p: Piece, html: bool)
    ensures Led([p], html) == "," + PieceText(p, html)
  {
    assert [p][..0] == [] && Led([], html) == "";
  }

  lemma TailText(r: Rec, html: bool)
    ensures Led(Tail(r, html), html) == PoliciesText(r.rules, html) + TagsText(r.tags + RuleTags(r.rules), html)
  {
    var policies := Of("policies", Printed(JArray(Policies(r.rules)), html));
    var tags := Of("tags", Printed(JArray(Strings(r.tags + RuleTags(r.rules))), html));
    LedOne(policies, html);
    LedOne(tags, html);
    assert [policies, tags][..1] == [policies];
    assert [policies] + [tags] == [policies, tags] && [] + [tags] == [tags];
  }

  function PoliciesText(infos: seq<C.RuleInfo>, html: bool): string
  {
    if infos == [] then "" else "," + PieceText(Of("policies", Printed(JArray(Policies(infos)), html)), html)
  }

  function TagsText(tags: seq<string>, html: bool): string
  {
    if tags == [] then "" else "," + PieceText(Of("tags", Printed(JArray(Strings(tags)), html)), html)
  }

  lemma FourMembers(b: string, ps: seq<Piece>, html: bool)
    requires |ps| == 4
    ensures b + "{" + PieceText(ps[0], html) + "," + PieceText(ps[1], html) + "," + PieceText(ps[2], html)
              + "," + PieceText(ps[3], html) + "}" == b + ObjectText(ps, html)
  {
    ObjectNext(b, ps, 0, html);
    ObjectNext(b, ps, 1, html);
    ObjectNext(b, ps, 2, html);
    ObjectNext(b, ps, 3, html);
    ObjectDone(b, ps, html);
  }

  lemma FiveMembers(b: string, ps: seq<Piece>, html: bool)
    requires |ps| == 5
    ensures b + "{" + PieceText(ps[0], html) + "," + PieceText(ps[1], html) + "," + PieceText(ps[2], html)
              + "," + PieceText(ps[3], html) + "," + PieceText(ps[4], html) + "}" == b + ObjectText(ps, html)
  {
    ObjectNext(b, ps, 0, html);
    ObjectNext(b, ps, 1, html);
    ObjectNext(b, ps, 2, html);
    ObjectNext(b, ps, 3, html);
    ObjectNext(b, ps, 4, html);
    ObjectDone(b, ps, html);
  }

  lemma TwoElements(b: string, x: Json, y: Json, html: bool)
    ensures b + "[" + Print(x, html) + "," + Print(y, html) + "]" == b + Print(JArray([x, y]), html)
  {
    var es := [x, y];
    ListOpens(b, es, html);
    ListNext(b, es, 0, html);
    ListNext(b, es, 1, html);
    ListDone(b, es, html);
  }

  lemma FourOctets(b: string, w: string, x: string, y: string, z: string)
    ensures b + w + "." + x + "." + y + "." + z == b + (w + "." + x + "." + y + "." + z)
  {
    Associate(b, w, ".");
    Associate(b, w + ".", x);
    Associate(b, w + "." + x, ".");
    Associate(b, w + "." + x + ".", y);
    Associate(b, w + "." + x + "." + y, ".");
    Associate(b, w + "." + x + "." + y + ".", z);
  }

  lemma BraceAndComma(b: string)
    ensures b + "}," == b + "}" + "," && b + "}" == b + "}" + ""
  {
  }

  lemma Enclosed(b: string, t: string)
    ensures b + "\"" + t + "\"" == b + ("\"" + t + "\"")
  {
  }

  function PortPieces(p: Port, html: bool): (ps: seq<Piece>)
  {
    [Of("port", Printed(Int(p.port), html)),
     Of("targetport", Printed(Int(p.targetPort), html)),
     Of("nodeport", Printed(Int(p.nodePort), html)),
     Of("proto", Printed(JString(p.proto), html))]
  }

  lemma PortPrints(p: Port, html: bool)
    ensures ObjectText(PortPieces(p, html), html) == Print(PortObject(p), html)
  {
    var ms := PortObject(p).members;
    PortWellFormed(p);
    PiecesPrint(ms, html);
    assert PortPieces(p, html) == PiecesOf(ms, html);
  }

  function PtreeText(r: Rec, attr: PtreeAttr, html: bool): string
  {
    match r.ptree
    case None => ""
    case Some(ptree) => Print(PtreeValue(attr, ptree), html)
  }

  /** What one tagged field adds to the text `b`. */
  function FieldText(b: string, r: Rec, f: Field, state: Option<Section>, existed: bool, html: bool): string
  {
    var shown, attr := StatusOf(r, f.section) == Shown, PieceText(Attr(r, f, html), html);
    if state != Some(f.section) then
      var closed := if state != None && existed then b + "}," else b;
      if shown then closed + "\"" + SectionKey(f.section) + "\":{" + attr else closed
    else if shown then b + "," + attr
    else b
  }

  predicate Existed(r: Rec, runs: seq<Run>)
  {
    runs == [] || LastShown(r, runs)
  }

  lemma StartRun(r: Rec, head: seq<Piece>, runs: seq<Run>, f: Field, html: bool)
    requires StateOf(runs) != Some(f.section)
    ensures SoFar(r, head, runs + [Run(f.section, [f])], html) ==
            FieldText(SoFar(r, head, runs, html), r, f, StateOf(runs), Existed(r, runs), html)
  {
    StartSection(r, head, runs, f, html);
    var b, closed := SoFar(r, head, runs, html), Settled(r, head, runs, html);
    assert closed == if StateOf(runs) != None && Existed(r, runs) then b + "}," else b;
  }

  /** What a tagged field does to the text. */
  lemma RunNext(r: Rec, head: seq<Piece>, runs: seq<Run>, f: Field, html: bool)
    requires runs != [] ==> runs[|runs| - 1].fields != []
    ensures SoFar(r, head, Extend(runs, f), html) ==
            FieldText(SoFar(r, head, runs, html), r, f, StateOf(runs), Existed(r, runs), html)
  {
    if StateOf(runs) == Some(f.section) {
      ExtendSection(r, head, runs, f, html);
    } else {
      StartRun(r, head, runs, f, html);
    }
  }

  lemma TaggedNext(r: Rec, version: string, fields: seq<Field>, k: nat, html: bool)
    requires k < |fields| && |fields[k].sects| == 3 && StatusOf(r, fields[k].section) != Ignored
    ensures var runs := Runs(Tagged(r, fields[..k]));
            Progress(r, version, fields[..k + 1], html) ==
            FieldText(Progress(r, version, fields[..k], html), r, fields[k], StateOf(runs), Existed(r, runs), html)
  {
    PrefixStep(r, fields, k);
    assert Pairs(fields[..k]) + [] == Pairs(fields[..k]);
    RunStep(Tagged(r, fields[..k]), fields[k]);
    RunNext(r, Head(r, version, Pairs(fields[..k]), html), Runs(Tagged(r, fields[..k])), fields[k], html);
  }

  lemma StateNext(r: Rec, fields: seq<Field>, k: nat)
    requires k < |fields| && |fields[k].sects| == 3 && StatusOf(r, fields[k].section) != Ignored
    ensures var runs, runs' := Runs(Tagged(r, fields[..k])), Runs(Tagged(r, fields[..k + 1]));
            StateOf(runs') == Some(fields[k].section)
            && Existed(r, runs') == if StateOf(runs) == Some(fields[k].section) then Existed(r, runs) else StatusOf(r, fields[k].section) == Shown
  {
    PrefixStep(r, fields, k);
    RunStep(Tagged(r, fields[..k]), fields[k]);
  }

  lemma UntaggedNext(r: Rec, version: string, fields: seq<Field>, k: nat, html: bool)
    requires k < |fields| && |fields[k].sects| != 2
    requires |fields[k].sects| != 3 || StatusOf(r, fields[k].section) == Ignored
    ensures Progress(r, version, fields[..k + 1], html) == Progress(r, version, fields[..k], html)
    ensures Tagged(r, fields[..k + 1]) == Tagged(r, fields[..k])
  {
    PrefixStep(r, fields, k);
    assert Pairs(fields[..k]) + [] == Pairs(fields[..k]) && Tagged(r, fields[..k]) + [] == Tagged(r, fields[..k]);
  }

  lemma PairFieldNext(r: Rec, version: string, fields: seq<Field>, k: nat, html: bool)
    requires Sorted(fields) && k < |fields| && |fields[k].sects| == 2
    ensures Progress(r, version, fields[..k + 1], html) ==
            Progress(r, version, fields[..k], html) + PieceText(Attr(r, fields[k], html), html) + ","
    ensures Tagged(r, fields[..k + 1]) == Tagged(r, fields[..k])
  {
    PrefixStep(r, fields, k);
    SortedPrefix(r, fields, k);
    assert Tagged(r, fields[..k]) + [] == Tagged(r, fields[..k]);
    PairNext(r, version, Pairs(fields[..k]), fields[k], html);
  }

  lemma WalkStarts(r: Rec, version: string, html: bool)
    ensures Progress(r, version, [], html) == "{\"version\":" + version + ","
  {
    HeadOpens(r, version, html);
  }

  lemma WalkEnds(r: Rec, version: string, fields: seq<Field>, html: bool)
    ensures Progress(r, version, fields, html) + "}" + PoliciesText(r.rules, html) + TagsText(r.tags + RuleTags(r.rules), html) + "}"
            == EncodedText(r, version, fields, html)
  {
    var head, runs := Head(r, version, Pairs(fields), html), Runs(Tagged(r, fields));
    EndWalk(r, head, runs, html);
    TailText(r, html);
    var body := head + Sections(r, runs, html);
    EndRecord(if LastShown(r, runs) then Joined(body, html) else Terminated(body, html) + "}",
              PoliciesText(r.rules, html), TagsText(r.tags + RuleTags(r.rules), html));
    Associate(Terminated(body, html), "}", Led(Tail(r, html), html) + "}");
  }

  lemma EndRecord(body: string, policies: string, tags: string)
    ensures "{" + body + policies + tags + "}" == "{" + (body + ((policies + tags) + "}"))
  {
    Associate("{" + body, policies, tags);
    Associate("{" + body, policies + tags, "}");
    Associate("{", body, (policies + tags) + "}");
  }

  predicate PlainKeys(fields: seq<Field>)
  {
    forall i :: 0 <= i < |fields| ==> forall c: char :: c in fields[i].Key() ==> IsPlain(c, true)
  }

  lemma VersionOpens(version: string)
    ensures "" + "{\"version\":" + version + "," == "{\"version\":" + version + ","
  {
    assert "" + "{\"version\":" == "{\"version\":";
  }

  lemma BracketFollows()
    ensures ",\"policies\":" + "[" == ",\"policies\":["
    ensures ",\"tags\":" + "[" == ",\"tags\":["
  {
  }

  lemma TagParts(ctags: seq<string>, rtags: seq<string>)
    ensures var tags := ctags + rtags;
            tags[0..0 + |ctags|] == ctags && tags[|ctags|..|ctags| + |rtags|] == rtags
  {
  }

  /** A list member written as one constant with key and bracket, the elements, and a bracket. */
  lemma LedList(start: string, raw: string, key: Plain, es: seq<Json>, html: bool)
    requires raw == "," + "\"" + key + "\":"
    ensures start + (raw + "[") == ListSoFar(start + raw, es, 0, html)
    ensures ListSoFar(start + raw, es, |es|, html) + "]" == start + ("," + PieceText(Of(key, Printed(JArray(es), html)), html))
  {
    var p := Of(key, Printed(JArray(es), html));
    ListOpens(start + raw, es, html);
    Associate(start, raw, "[");
    ListDone(start + raw, es, html);
    LedMember(start, ",", raw, p, html);
    Associate(start, ",", PieceText(p, html));
  }

  lemma OneElement(b: string, v: Json, html: bool)
    ensures b + "[" + Print(v, html) + "]" == b + Print(JArray([v]), html)
  {
    ListOpens(b, [v], html);
    ListNext(b, [v], 0, html);
    ListDone(b, [v], html);
    assert b + "[" + Print(v, html) + "" == b + "[" + Print(v, html);
  }

  /** What a byte that ends every sequence separates is decoded on its own. */
  lemma WidthBefore(a: string, c: char, b: string)
    requires a != "" && c as int < 0x80
    ensures RuneWidth(a + [c] + b) == RuneWidth(a)
  {
    var t := a + [c] + b;
    assert forall i :: 0 <= i < |a| ==> t[i] == a[i];
    assert t[|a|] == c;
  }

  lemma UnitBefore(a: string, b: string, html: bool)
    requires a != ""
    ensures var t := a + " " + b;
            EscapeUnit(t, html) == EscapeUnit(a, html) && Step(t) == Step(a) && t[Step(a)..] == a[Step(a)..] + " " + b
  {
    var t, w := a + " " + b, RuneWidth(a);
    WidthBefore(a, ' ', b);
    assert forall i :: 0 <= i < |a| ==> t[i] == a[i];
    assert t[..w] == a[..w] && t[..1] == a[..1];
  }

  /** Escaping text around a space escapes either side. */
  lemma {:induction false} EscapeAround(a: string, b: string, html: bool)
    ensures Escape(a + " " + b, html) == Escape(a, html) + " " + Escape(b, html)
  {
    var t := a + " " + b;
    if a == "" {
      assert t == [' '] + b && t[..1] == " " && t[1..] == b;
      assert IsPlain(' ', html) && Step(t) == 1;
      assert "" + " " == " ";
    } else {
      UnitBefore(a, b, html);
      EscapeAround(a[Step(a)..], b, html);
      ArgsText(EscapeUnit(a, html), Escape(a[Step(a)..], html), Escape(b, html));
    }
  }

  lemma ArgsText(u: string, a: string, b: string)
    ensures u + (a + " " + b) == (u + a) + " " + b
  {
    Associate(u, a, " ");
    Associate(u, a + " ", b);
  }

  class JSONEncoder {
    const fields: seq<Field>
    const schemaVersion: string
    const writer: Writer
    var batch: seq<string>

    constructor (fields: seq<Field>, schemaVersion: string)
      ensures this.fields == fields && this.schemaVersion == schemaVersion
      ensures fresh(writer) && writer.buffer == "" && batch == []
    {
      this.fields := fields;
      this.schemaVersion := schemaVersion;
      writer := new Writer(false);
      batch := [];
    }

    function Html(): bool
    {
      !writer.noEscapeHTML
    }

    /** `mapStrArray` */
    method StrArray(ss: seq<Plain>)
      modifies writer
      ensures writer.buffer == old(writer.buffer) + Print(JArray(Strings(ss)), Html())
    {
      ghost var b, es := writer.buffer, Strings(ss);
      writer.RawString("[");
      ListOpens(b, es, Html());
      for i := 0 to |ss|
        invariant writer.buffer == ListSoFar(b, es, i, Html())
      {
        ghost var sofar := writer.buffer;
        writer.RawString("\"");
        writer.RawString(ss[i]);
        writer.RawString("\"");
        PlainQuote(ss[i], Html());
        assert writer.buffer == sofar + Print(es[i], Html());
        if i < |ss| - 1 {
          writer.RawString(",");
        } else {
          assert writer.buffer == writer.buffer + "";
        }
        ListNext(b, es, i, Html());
      }
      writer.RawString("]");
      ListDone(b, es, Html());
    }

    /** `mapIPStr` */
    method IPStr(ip: int)
      modifies writer
      ensures writer.buffer == old(writer.buffer) + IPText(ip)
    {
      ghost var b := writer.buffer;
      writer.Int64(ip % 256);
      writer.RawString(".");
      writer.Int64(ip / 0x100 % 256);
      writer.RawString(".");
      writer.Int64(ip / 0x1_0000 % 256);
      writer.RawString(".");
      writer.Int64(ip / 0x100_0000 % 256);
      FourOctets(b, FormatInt(ip % 256), FormatInt(ip / 0x100 % 256), FormatInt(ip / 0x1_0000 % 256), FormatInt(ip / 0x100_0000 % 256));
    }

    method QuotedIP(ip: int)
      modifies writer
      ensures writer.buffer == old(writer.buffer) + Print(JString(IPText(ip)), Html())
      ensures Print(JString(IPText(ip)), Html()) == "\"" + IPText(ip) + "\""
    {
      IPTextIsPlain(ip);
      PlainQuote(IPText(ip), Html());
      Enclosed(writer.buffer, IPText(ip));
      writer.RawString("\"");
      IPStr(ip);
      writer.RawString("\"");
    }

    /** `mapIPs` */
    method IPPair(src: int, dst: int)
      modifies writer
      ensures writer.buffer == old(writer.buffer) + Print(JArray([JString(IPText(src)), JString(IPText(dst))]), Html())
    {
      TwoElements(writer.buffer, JString(IPText(src)), JString(IPText(dst)), Html());
      writer.RawString("[");
      QuotedIP(src);
      writer.RawString(",");
      QuotedIP(dst);
      writer.RawString("]");
    }

    /** `mapPorts` */
    method PortPair(src: int, dst: int)
      modifies writer
      ensures writer.buffer == old(writer.buffer) + Print(JArray([Int(src), Int(dst)]), Html())
    {
      TwoElements(writer.buffer, Int(src), Int(dst), Html());
      writer.RawString("[");
      writer.Int64(src);
      writer.RawString(",");
      writer.Int64(dst);
      writer.RawString("]");
    }

    /** `mapIPArray`, which writes no commas */
    method IPList(ips: seq<int>)
      modifies writer
      ensures writer.buffer == old(writer.buffer) + IPArray(ips).text
    {
      ghost var b, texts := writer.buffer, IPStrings(ips);
      writer.RawString("[");
      assert b + "[" == b + ("[" + "");
      for i := 0 to |ips|
        invariant writer.buffer == b + ("[" + RunTogether(texts[..i]))
      {
        QuotedIP(ips[i]);
        RunTogetherNext(b, texts, i);
      }
      writer.RawString("]");
      assert texts[..|ips|] == texts;
      RegroupInner(b, "[", RunTogether(texts), "]");
    }

    method StrField(name: Plain, v: string)
      modifies writer
      ensures writer.buffer == old(writer.buffer) + PieceText(Of(name, Printed(JString(v), Html())), Html())
    {
      RawMember(writer.buffer, Of(name, Printed(JString(v), Html())), Html());
      writer.RawString("\"");
      writer.RawString(name);
      writer.RawString("\":");
      writer.String(v);
    }

    method IntField(name: Plain, v: int)
      modifies writer
      ensures writer.buffer == old(writer.buffer) + PieceText(Of(name, Printed(Int(v), Html())), Html())
    {
      RawMember(writer.buffer, Of(name, Printed(Int(v), Html())), Html());
      writer.RawString("\"");
      writer.RawString(name);
      writer.RawString("\":");
      writer.Int64(v);
    }

    method IntArrayField(name: Plain, ips: seq<int>)
      modifies writer
      ensures writer.buffer == old(writer.buffer) + PieceText(Of(name, IPArray(ips)), Html())
    {
      RawMember(writer.buffer, Of(name, IPArray(ips)), Html());
      writer.RawString("\"");
      writer.RawString(name);
      writer.RawString("\":");
      IPList(ips);
    }

    method PortNumbers(p: Port)
      modifies writer
      ensures var ps := PortPieces(p, Html());
              writer.buffer == old(writer.buffer) + "{" + PieceText(ps[0], Html()) + "," + PieceText(ps[1], Html()) + "," + PieceText(ps[2], Html())
    {
      writer.RawString("{");
      IntField("port", p.port);
      writer.RawString(",");
      IntField("targetport", p.targetPort);
      writer.RawString(",");
      IntField("nodeport", p.nodePort);
    }

    /** One port, and the comma when another follows. */
    method PortEntry(p: Port, more: bool)
      modifies writer
      ensures writer.buffer == old(writer.buffer) + ObjectText(PortPieces(p, Html()), Html()) + if more then "," else ""
    {
      FourMembers(writer.buffer, PortPieces(p, Html()), Html());
      PortNumbers(p);
      writer.RawString(",");
      StrField("proto", p.proto);
      BraceAndComma(writer.buffer);
      if more {
        writer.RawString("},");
      } else {
        writer.RawString("}");
      }
    }

    /** `mapPortList` */
    method PortList(ports: seq<Port>)
      modifies writer
      ensures writer.buffer == old(writer.buffer) + PieceText(Of("ports", Printed(JArray(Ports(ports)), Html())), Html())
    {
      RawMember(writer.buffer, Of("ports", Printed(JArray(Ports(ports)), Html())), Html());
      writer.RawString("\"");
      writer.RawString("ports");
      writer.RawString("\":");
      PortArray(ports);
    }

    method PortArray(ports: seq<Port>)
      modifies writer
      ensures writer.buffer == old(writer.buffer) + Print(JArray(Ports(ports)), Html())
    {
      ghost var b, es := writer.buffer, Ports(ports);
      writer.RawString("[");
      ListOpens(b, es, Html());
      for i := 0 to |ports|
        invariant writer.buffer == ListSoFar(b, es, i, Html())
      {
        PortEntry(ports[i], i + 1 < |ports|);
        PortPrints(ports[i], Html());
        ListNext(b, es, i, Html());
      }
      writer.RawString("]");
      ListDone(b, es, Html());
    }

    method ServiceNames(s: Service)
      modifies writer
      ensures var ps := ServicePieces(s, Html());
              writer.buffer == old(writer.buffer) + "{" + PieceText(ps[0], Html()) + "," + PieceText(ps[1], Html()) + "," + PieceText(ps[2], Html())
    {
      writer.RawString("{");
      StrField("id", s.id);
      writer.RawString(",");
      StrField("name", s.name);
      writer.RawString(",");
      StrField("namespace", s.ns);
    }

    method ServiceLists(s: Service)
      modifies writer
      ensures var ps := ServicePieces(s, Html());
              writer.buffer == old(writer.buffer) + "," + PieceText(ps[3], Html()) + "," + PieceText(ps[4], Html())
    {
      writer.RawString(",");
      IntArrayField("clusterIP", s.clusterIP);
      writer.RawString(",");
      PortList(s.ports);
    }

    method ServiceObject(s: Service)
      modifies writer
      ensures writer.buffer == old(writer.buffer) + ObjectText(ServicePieces(s, Html()), Html())
    {
      FiveMembers(writer.buffer, ServicePieces(s, Html()), Html());
      ServiceNames(s);
      ServiceLists(s);
      writer.RawString("}");
    }

    /** `mapSvcArray`, which writes no commas either */
    method SvcArray(svcs: seq<Service>)
      modifies writer
      ensures writer.buffer == old(writer.buffer) + ServiceArray(svcs, Html()).text
    {
      ghost var b, texts := writer.buffer, ServiceTexts(svcs, Html());
      writer.RawString("[");
      assert b + "[" == b + ("[" + "");
      for i := 0 to |svcs|
        invariant writer.buffer == b + ("[" + RunTogether(texts[..i]))
      {
        ServiceObject(svcs[i]);
        RunTogetherNext(b, texts, i);
      }
      writer.RawString("]");
      assert texts[..|svcs|] == texts;
      RegroupInner(b, "[", RunTogether(texts), "]");
    }

    /** The command line of a process: executable and arguments escaped one after the other. */
    method CmdLineString(p: Proc)
      modifies writer
      ensures writer.buffer == old(writer.buffer) + Print(JString(CmdLine(p)), Html())
    {
      var exe, args := TrimBoundingQuotes(p.exe), TrimBoundingQuotes(p.exeArgs);
      ghost var b := writer.buffer;
      writer.RawString("\"");
      writer.StringNoQuotes(exe);
      if |args| > 0 {
        writer.RawString(" ");
        writer.StringNoQuotes(args);
        EscapeAround(exe, args, Html());
        ArgsText(b + "\"", Escape(exe, Html()), Escape(args, Html()));
      }
      writer.RawString("\"");
      Enclosed(b, Escape(CmdLine(p), Html()));
    }

    /** The array branches of `setCachedValueToJSON`. */
    method AncestorArray(attr: PtreeAttr, ptree: seq<Proc>)
      requires attr.ProcAName? || attr.ProcAExe? || attr.ProcACmdLine? || attr.ProcAPID?
      modifies writer
      ensures writer.buffer == old(writer.buffer) + Print(JArray(PtreeElements(attr, ptree)), Html())
    {
      ghost var b, es := writer.buffer, PtreeElements(attr, ptree);
      writer.RawString("[");
      ListOpens(b, es, Html());
      for i := 0 to |ptree|
        invariant writer.buffer == ListSoFar(b, es, i, Html())
      {
        AncestorElement(attr, ptree[i]);
        if i < |ptree| - 1 {
          writer.RawString(",");
        } else {
          assert writer.buffer == writer.buffer + "";
        }
        ListNext(b, es, i, Html());
      }
      writer.RawString("]");
      ListDone(b, es, Html());
    }

    method AncestorElement(attr: PtreeAttr, p: Proc)
      requires attr.ProcAName? || attr.ProcAExe? || attr.ProcACmdLine? || attr.ProcAPID?
      modifies writer
      ensures writer.buffer == old(writer.buffer) + Print(PtreeElement(attr, p), Html())
    {
      if attr.ProcAName? {
        writer.String(TrimBoundingQuotes(Base(p.exe)));
      } else if attr.ProcAExe? {
        writer.String(TrimBoundingQuotes(p.exe));
      } else if attr.ProcACmdLine? {
        CmdLineString(p);
      } else {
        writer.Int64(p.pid);
      }
    }

    /** The text branches of `setCachedValueToJSON`, on the parent. */
    method ParentText(attr: PtreeAttr, ptree: seq<Proc>)
      requires attr.PProcName? || attr.PProcExe? || attr.PProcArgs? || attr.PProcUser? || attr.PProcGroup? || attr.PProcCmdLine?
      modifies writer
      ensures writer.buffer == old(writer.buffer) + Print(PtreeValue(attr, ptree), Html())
    {
      if |ptree| <= 1 {
        writer.String("\"\"");
      } else if attr.PProcCmdLine? {
        CmdLineString(ptree[1]);
      } else {
        var text :=
          if attr.PProcName? then Base(ptree[1].exe)
          else if attr.PProcExe? then ptree[1].exe
          else if attr.PProcArgs? then ptree[1].exeArgs
          else if attr.PProcUser? then ptree[1].user
          else ptree[1].group;
        writer.String(TrimBoundingQuotes(text));
      }
    }

    /** Its number branches. */
    method ParentNumber(attr: PtreeAttr, ptree: seq<Proc>)
      requires attr.PProcUID? || attr.PProcGID?
      modifies writer
      ensures writer.buffer == old(writer.buffer) + Print(PtreeValue(attr, ptree), Html())
    {
      if |ptree| <= 1 {
        writer.Int64(0);
      } else if attr.PProcUID? {
        writer.Int64(ptree[1].uid);
      } else {
        writer.Int64(ptree[1].gid);
      }
    }

    /** Its flag branches. */
    method ParentFlag(attr: PtreeAttr, ptree: seq<Proc>)
      requires attr.PProcTTY? || attr.PProcEntry?
      modifies writer
      ensures writer.buffer == old(writer.buffer) + Print(PtreeValue(attr, ptree), Html())
    {
      if |ptree| <= 1 {
        writer.Bool(false);
      } else if attr.PProcTTY? {
        writer.Bool(ptree[1].tty);
      } else {
        writer.Bool(ptree[1].entry);
      }
    }

    /** `setCachedValueToJSON`, which writes nothing for a record without a process tree */
    method CachedValue(r: Rec, attr: PtreeAttr)
      modifies writer
      ensures writer.buffer == old(writer.buffer) + PtreeText(r, attr, Html())
    {
      if r.ptree.None? {
        assert writer.buffer == writer.buffer + "";
      } else if attr.ProcAName? || attr.ProcAExe? || attr.ProcACmdLine? || attr.ProcAPID? {
        AncestorArray(attr, r.ptree.value);
      } else if attr.PProcUID? || attr.PProcGID? {
        ParentNumber(attr, r.ptree.value);
      } else if attr.PProcTTY? || attr.PProcEntry? {
        ParentFlag(attr, r.ptree.value);
      } else {
        ParentText(attr, r.ptree.value);
      }
    }

    method WrappedString(v: string)
      modifies writer
      ensures writer.buffer == old(writer.buffer) + Print(JArray([JString(v)]), Html())
    {
      OneElement(writer.buffer, JString(v), Html());
      writer.RawString("[");
      writer.String(v);
      writer.RawString("]");
    }

    /** `MapJSON` */
    method MapJSON(r: Rec, f: Field)
      modifies writer
      ensures writer.buffer == old(writer.buffer) + FieldValue(r, f, Html()).text
    {
      match f.kind
      case PtreeKind(attr) => CachedValue(r, attr);
      case StrKind => writer.String(TrimBoundingQuotes(r.strs(f)));
      case IntKind => writer.Int64(r.ints(f));
      case BoolKind => writer.Bool(r.bools(f));
      case OpFlagsKind => StrArray(r.flags(f));
      case OpenFlagsKind =>
        if r.rtype == NetFlow {
          IPPair(r.srcIP, r.dstIP);
        } else {
          StrArray(r.flags(f));
        }
      case PortsKind => PortPair(r.srcPort, r.dstPort);
      case IPArrayKind => IPList(r.ips(f));
      case WrappedKind => WrappedString(r.strs(f));
      case ServicesKind => SvcArray(r.services(f));
    }

    /** `writeAttribute` */
    method WriteAttribute(r: Rec, f: Field)
      requires f.sects != [] && PlainKey(Attr(r, f, Html()))
      modifies writer
      ensures writer.buffer == old(writer.buffer) + PieceText(Attr(r, f, Html()), Html())
    {
      RawMember(writer.buffer, Attr(r, f, Html()), Html());
      writer.RawString("\"");
      var name := f.sects[|f.sects| - 1];
      if HasSuffix(name, "+") {
        writer.RawString(name[..|name| - 1]);
      } else {
        writer.RawString(name);
      }
      writer.RawString("\":");
      MapJSON(r, f);
    }

    /** `writeSectionBegin` */
    method WriteSectionBegin(key: Plain)
      modifies writer
      ensures writer.buffer == old(writer.buffer) + "\"" + key + "\":{"
    {
      writer.RawString("\"");
      writer.RawString(key);
      writer.RawString("\":{");
    }

    /**
     The branch of the switch for a tagged field: `state` is the section of the last
     tagged field, `existed` whether its object was opened.
     */
    method SectionField(r: Rec, f: Field, state: Option<Section>, existed: bool) returns (state': Option<Section>, existed': bool)
      requires StatusOf(r, f.section) != Ignored && PlainKey(Attr(r, f, Html())) && f.sects != []
      modifies writer
      ensures state' == Some(f.section)
      ensures existed' == if state == Some(f.section) then existed else StatusOf(r, f.section) == Shown
      ensures writer.buffer == FieldText(old(writer.buffer), r, f, state, existed, Html())
    {
      var shown := StatusOf(r, f.section) == Shown;
      existed' := existed;
      if state != Some(f.section) {
        if state != None && existed {
          writer.RawString("},");
        }
        existed' := shown;
        if shown {
          WriteSectionBegin(SectionKey(f.section));
          WriteAttribute(r, f);
        }
      } else if shown {
        writer.RawString(",");
        WriteAttribute(r, f);
      }
      state' := Some(f.section);
    }

    /** The loop over the field table. */
    method Walk(r: Rec)
      requires Sorted(fields) && PlainKeys(fields)
      requires writer.buffer == Progress(r, schemaVersion, [], Html())
      modifies writer
      ensures writer.buffer == Progress(r, schemaVersion, fields, Html())
    {
      var state: Option<Section>, existed := None, true;
      for k := 0 to |fields|
        invariant writer.buffer == Progress(r, schemaVersion, fields[..k], Html())
        invariant state == StateOf(Runs(Tagged(r, fields[..k])))
        invariant existed == Existed(r, Runs(Tagged(r, fields[..k])))
      {
        var f := fields[k];
        if |f.sects| == 2 {
          PairFieldNext(r, schemaVersion, fields, k, Html());
          WriteAttribute(r, f);
          writer.RawString(",");
        } else if |f.sects| == 3 && StatusOf(r, f.section) != Ignored {
          TaggedNext(r, schemaVersion, fields, k, Html());
          StateNext(r, fields, k);
          state, existed := SectionField(r, f, state, existed);
        } else {
          UntaggedNext(r, schemaVersion, fields, k, Html());
        }
      }
      assert fields[..|fields|] == fields;
    }

    /** The rules that fired, and the tags they carry. */
    method WritePolicies(infos: seq<C.RuleInfo>) returns (rtags: seq<string>)
      modifies writer
      ensures rtags == RuleTags(infos)
      ensures writer.buffer == old(writer.buffer) + PoliciesText(infos, Html())
    {
      rtags := [];
      if |infos| > 0 {
        LedList(writer.buffer, ",\"policies\":", "policies", Policies(infos), Html());
        ghost var b := writer.buffer + ",\"policies\":";
        BracketFollows();
        writer.RawString(",\"policies\":[");
        rtags := PolicyElements(infos, b);
        writer.RawString("]");
      } else {
        assert writer.buffer == writer.buffer + "";
      }
    }

    method PolicyElements(infos: seq<C.RuleInfo>, ghost b: string) returns (rtags: seq<string>)
      requires writer.buffer == ListSoFar(b, Policies(infos), 0, Html())
      modifies writer
      ensures rtags == RuleTags(infos)
      ensures writer.buffer == ListSoFar(b, Policies(infos), |infos|, Html())
    {
      rtags := [];
      for num := 0 to |infos|
        invariant writer.buffer == ListSoFar(b, Policies(infos), num, Html())
        invariant rtags == RuleTags(infos[..num])
      {
        WritePolicy(infos[num], num < |infos| - 1);
        ListNext(b, Policies(infos), num, Html());
        assert infos[..num + 1][..num] == infos[..num];
        var tags := CollectTags(infos[num].tags);
        rtags := rtags + tags;
      }
      assert infos[..|infos|] == infos;
    }

    method WritePolicy(info: C.RuleInfo, more: bool)
      modifies writer
      ensures writer.buffer == old(writer.buffer) + Print(PolicyObject(info), Html()) + if more then "," else ""
    {
      PolicyText(writer.buffer, info, Html());
      writer.RawString("{\"id\":");
      writer.String(info.name);
      writer.RawString(",\"desc\":");
      writer.String(info.desc);
      writer.RawString(",\"priority\":");
      writer.Int64(info.priority);
      writer.RawString("}");
      if more {
        writer.RawString(",");
      } else {
        assert writer.buffer == writer.buffer + "";
      }
    }

    method CollectTags(tags: seq<C.Tag>) returns (all: seq<string>)
      ensures all == TagsOf(tags)
    {
      all := [];
      for i := 0 to |tags|
        invariant all == TagsOf(tags[..i])
      {
        assert tags[..i + 1][..i] == tags[..i];
        match tags[i]
        case OneTag(tag) => all := all + [tag];
        case TagList(ts) => all := all + ts;
      }
      assert tags[..|tags|] == tags;
    }

    /** The tags of the context, then those of the rules, in one list. */
    method WriteTags(ctags: seq<string>, rtags: seq<string>)
      modifies writer
      ensures writer.buffer == old(writer.buffer) + TagsText(ctags + rtags, Html())
    {
      if |rtags| + |ctags| > 0 {
        LedList(writer.buffer, ",\"tags\":", "tags", Strings(ctags + rtags), Html());
        ghost var b := writer.buffer + ",\"tags\":";
        BracketFollows();
        writer.RawString(",\"tags\":[");
        TagLoops(ctags, rtags, b);
        writer.RawString("]");
      } else {
        assert writer.buffer == writer.buffer + "";
      }
    }

    method TagLoops(ctags: seq<string>, rtags: seq<string>, ghost b: string)
      requires writer.buffer == ListSoFar(b, Strings(ctags + rtags), 0, Html())
      modifies writer
      ensures writer.buffer == ListSoFar(b, Strings(ctags + rtags), |ctags + rtags|, Html())
    {
      TagParts(ctags, rtags);
      var currentTag := TagElements(ctags, 0, |rtags| + |ctags|, ctags + rtags, b);
      currentTag := TagElements(rtags, currentTag, |rtags| + |ctags|, ctags + rtags, b);
    }

    /** One of the two tag loops; `currentTag` counts through both. */
    method TagElements(part: seq<string>, start: nat, numTags: nat, ghost tags: seq<string>, ghost b: string) returns (currentTag: nat)
      requires |tags| == numTags && start + |part| <= numTags && tags[start..start + |part|] == part
      requires writer.buffer == ListSoFar(b, Strings(tags), start, Html())
      modifies writer
      ensures currentTag == start + |part|
      ensures writer.buffer == ListSoFar(b, Strings(tags), currentTag, Html())
    {
      currentTag := start;
      for i := 0 to |part|
        invariant currentTag == start + i
        invariant writer.buffer == ListSoFar(b, Strings(tags), currentTag, Html())
      {
        assert part[i] == tags[start + i];
        WriteTag(part[i], currentTag < numTags - 1);
        ListNext(b, Strings(tags), currentTag, Html());
        currentTag := currentTag + 1;
      }
    }

    method WriteTag(tag: string, more: bool)
      modifies writer
      ensures writer.buffer == old(writer.buffer) + Print(JString(tag), Html()) + if more then "," else ""
    {
      writer.String(tag);
      if more {
        writer.RawString(",");
      } else {
        assert writer.buffer == writer.buffer + "";
      }
    }

    /** `encode` */
    method EncodeRecord(r: Rec) returns (data: string)
      requires Sorted(fields) && PlainKeys(fields) && writer.buffer == ""
      modifies writer
      ensures data == EncodedText(r, schemaVersion, fields, Html()) && writer.buffer == ""
    {
      writer.RawString("{\"version\":");
      writer.RawString(schemaVersion);
      writer.RawString(",");
      VersionOpens(schemaVersion);
      WalkStarts(r, schemaVersion, Html());
      Walk(r);
      writer.RawString("}");
      var rtags := WritePolicies(r.rules);
      WriteTags(r.tags, rtags);
      writer.RawString("}");
      WalkEnds(r, schemaVersion, fields, Html());
      data := writer.BuildBytes();
    }

    /** `Encode` */
    method Encode(recs: seq<Rec>) returns (data: seq<string>)
      requires Sorted(fields) && PlainKeys(fields) && writer.buffer == ""
      modifies this, writer
      ensures data == Each(recs, TextOf(schemaVersion, fields, Html())) && writer.buffer == ""
    {
      batch := [];
      for k := 0 to |recs|
        invariant writer.buffer == ""
        invariant batch == Each(recs[..k], TextOf(schemaVersion, fields, Html()))
      {
        var j := EncodeRecord(recs[k]);
        EachNext(recs, k, TextOf(schemaVersion, fields, Html()));
        batch := batch + [j];
      }
      assert recs[..|recs|] == recs;
      data := batch;
    }
  }

  function Each(recs: seq<Rec>, f: Rec -> string): (texts: seq<string>)
    ensures |texts| == |recs| && forall i :: 0 <= i < |recs| ==> texts[i] == f(recs[i])
  {
    seq(|recs|, i requires 0 <= i < |recs| => f(recs[i]))
  }

  lemma EachNext(recs: seq<Rec>, k: nat, f: Rec -> string)
    requires k < |recs|
    ensures Each(recs[..k + 1], f) == Each(recs[..k], f) + [f(recs[k])]
  {
  }

  /** The text of each record. */
  function TextOf(version: string, fields: seq<Field>, html: bool): Rec -> string
  {
    r => EncodedText(r, version, fields, html)
  }

  lemma RunTogetherNext(b: string, texts: seq<string>, i: nat)
    requires i < |texts|
    ensures b + ("[" + RunTogether(texts[..i])) + texts[i] == b + ("[" + RunTogether(texts[..i + 1]))
  {
    assert texts[..i + 1][..i] == texts[..i];
    RegroupInner(b, "[", RunTogether(texts[..i]), texts[i]);
  }
}
