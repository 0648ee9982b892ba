/**
 What the JSON encoder writes for one field, and which value that is. This is stated
 for every record, also for those whose text is not JSON.
 */
module JsonFields {
  import opened Text
  import opened JsonString
  import opened Json
  import opened JsonPieces
  import opened FieldTable
  import C = PolicyCompiler

  datatype RecType = ProcEvent | ProcFlow | FileEvent | FileFlow | NetFlow | K8sEvent | OtherRec

  /** One process of an ancestor chain. */
  datatype Proc = Proc(
    pid: int, exe: string, exeArgs: string, uid: int, user: string, gid: int, group: string, tty: bool, entry: bool)

  datatype Port = Port(port: int, targetPort: int, nodePort: int, proto: string)

  datatype Service = Service(id: string, name: string, ns: string, clusterIP: seq<int>, ports: seq<Port>)

  /** Text that needs no escaping. */
  type Plain = s: string | forall i :: 0 <= i < |s| ==> IsPlain(s[i], true)

  /** A record as the encoder sees it: the values of its fields, and its context. */
  datatype Rec = Rec(
    rtype: RecType,
    parentPID: int,
    contID: string,
    podID: string,
    strs: Field -> string,
    ints: Field -> int,
    bools: Field -> bool,
    flags: Field -> seq<Plain>,
    ips: Field -> seq<int>,
    services: Field -> seq<Service>,
    srcIP: int,
    dstIP: int,
    srcPort: int,
    dstPort: int,
    ptree: Option<seq<Proc>>,
    rules: seq<C.RuleInfo>,
    tags: seq<string>)

  // ------------------------------------------------------------------
  // Single values.

  /** Four octets, lowest first. */
  function IPText(ip: int): string
  {
    FormatInt(ip % 256) + "." + FormatInt(ip / 0x100 % 256) + "." + FormatInt(ip / 0x1_0000 % 256) + "." + FormatInt(ip / 0x100_0000 % 256)
  }

  function StripSlashes(path: string): string
  {
    if path != "" && path[|path| - 1] == '/' then StripSlashes(path[..|path| - 1]) else path
  }

  function AfterLastSlash(path: string): string
  {
    if path == "" || path[|path| - 1] == '/' then ""
    else AfterLastSlash(path[..|path| - 1]) + [path[|path| - 1]]
  }

  /** `filepath.Base` */
  function Base(path: string): string
  {
    if path == "" then "."
    else if StripSlashes(path) == "" then "/"
    else AfterLastSlash(StripSlashes(path))
  }

  function CmdLine(p: Proc): string
  {
    var exe, args := TrimBoundingQuotes(p.exe), TrimBoundingQuotes(p.exeArgs);
    if args == "" then exe else exe + " " + args
  }

  function Strings(ss: seq<string>): (es: seq<Json>)
    ensures |es| == |ss| && forall i :: 0 <= i < |ss| ==> es[i] == JString(ss[i])
  {
    seq(|ss|, i requires 0 <= i < |ss| => JString(ss[i]))
  }

  function Int(n: int): Json
  {
    JNumber(FormatInt(n))
  }

  /** An absent parent's texts are the two characters of a pair of quotes. */
  const ABSENT := JString("\"\"")

  function PtreeElement(attr: PtreeAttr, p: Proc): Json
  {
    match attr
    case ProcAName => JString(TrimBoundingQuotes(Base(p.exe)))
    case ProcAExe => JString(TrimBoundingQuotes(p.exe))
    case ProcACmdLine => JString(CmdLine(p))
    case _ => Int(p.pid)
  }

  function PtreeElements(attr: PtreeAttr, ptree: seq<Proc>): (es: seq<Json>)
    ensures |es| == |ptree| && forall i :: 0 <= i < |ptree| ==> es[i] == PtreeElement(attr, ptree[i])
  {
    seq(|ptree|, i requires 0 <= i < |ptree| => PtreeElement(attr, ptree[i]))
  }

  function PtreeValue(attr: PtreeAttr, ptree: seq<Proc>): Json
  {
    if attr.ProcAName? || attr.ProcAExe? || attr.ProcACmdLine? || attr.ProcAPID? then
      JArray(PtreeElements(attr, ptree))
    else if |ptree| <= 1 then
      if attr.PProcUID? || attr.PProcGID? then Int(0)
      else if attr.PProcTTY? || attr.PProcEntry? then JBool(false)
      else ABSENT
    else
      var parent := ptree[1];
      match attr
      case PProcName => JString(TrimBoundingQuotes(Base(parent.exe)))
      case PProcExe => JString(TrimBoundingQuotes(parent.exe))
      case PProcArgs => JString(TrimBoundingQuotes(parent.exeArgs))
      case PProcUID => Int(parent.uid)
      case PProcUser => JString(TrimBoundingQuotes(parent.user))
      case PProcGID => Int(parent.gid)
      case PProcGroup => JString(TrimBoundingQuotes(parent.group))
      case PProcTTY => JBool(parent.tty)
      case PProcEntry => JBool(parent.entry)
      case _ => JString(CmdLine(parent))
  }

  function PortObject(p: Port): Json
  {
    JObject([Member("port", Int(p.port)), Member("targetport", Int(p.targetPort)),
             Member("nodeport", Int(p.nodePort)), Member("proto", JString(p.proto))])
  }

  function Ports(ports: seq<Port>): (es: seq<Json>)
    ensures |es| == |ports| && forall i :: 0 <= i < |ports| ==> es[i] == PortObject(ports[i])
  {
    seq(|ports|, i requires 0 <= i < |ports| => PortObject(ports[i]))
  }

  // ------------------------------------------------------------------
  // Values whose text may not be JSON.

  datatype Rendered = Rendered(text: string, value: Option<Json>)

  function Printed(v: Json, html: bool): Rendered
  {
    Rendered(Print(v, html), Some(v))
  }

  function IPStrings(ips: seq<int>): (texts: seq<string>)
    ensures |texts| == |ips| && forall i :: 0 <= i < |ips| ==> texts[i] == "\"" + IPText(ips[i]) + "\""
  {
    seq(|ips|, i requires 0 <= i < |ips| => "\"" + IPText(ips[i]) + "\"")
  }

  /** Addresses are written with nothing in between. */
  function IPArray(ips: seq<int>): Rendered
  {
    Rendered(ListText(IPStrings(ips)),
             if ips == [] then Some(JArray([])) else if |ips| == 1 then Some(JArray([JString(IPText(ips[0]))])) else None)
  }

  function ServicePieces(s: Service, html: bool): (ps: seq<Piece>)
  {
    [Of("id", Printed(JString(s.id), html)),
     Of("name", Printed(JString(s.name), html)),
     Of("namespace", Printed(JString(s.ns), html)),
     Of("clusterIP", IPArray(s.clusterIP)),
     Of("ports", Printed(JArray(Ports(s.ports)), html))]
  }

  function ServiceTexts(svcs: seq<Service>, html: bool): (texts: seq<string>)
    ensures |texts| == |svcs| && forall i :: 0 <= i < |svcs| ==> texts[i] == ObjectText(ServicePieces(svcs[i], html), html)
  {
    seq(|svcs|, i requires 0 <= i < |svcs| => ObjectText(ServicePieces(svcs[i], html), html))
  }

  /** Services, too, are written with nothing in between. */
  function ServiceArray(svcs: seq<Service>, html: bool): Rendered
  {
    Rendered(ListText(ServiceTexts(svcs, html)),
             if svcs == [] then Some(JArray([]))
             else if |svcs| == 1 then
               match ObjectValue(ServicePieces(svcs[0], html))
               case Some(v) => Some(JArray([v]))
               case None => None
             else None)
  }

  function Of(key: string, r: Rendered): Piece
  {
    Piece(key, r.text, r.value)
  }

  /** What is written for a field, and the value it stands for. */
  function FieldValue(r: Rec, f: Field, html: bool): Rendered
  {
    match f.kind
    case StrKind => Printed(JString(TrimBoundingQuotes(r.strs(f))), html)
    case IntKind => Printed(Int(r.ints(f)), html)
    case BoolKind => Printed(JBool(r.bools(f)), html)
    case OpFlagsKind => Printed(JArray(Strings(r.flags(f))), html)
    case OpenFlagsKind =>
      if r.rtype == NetFlow then Printed(JArray([JString(IPText(r.srcIP)), JString(IPText(r.dstIP))]), html)
      else Printed(JArray(Strings(r.flags(f))), html)
    case PortsKind => Printed(JArray([Int(r.srcPort), Int(r.dstPort)]), html)
    case IPArrayKind => IPArray(r.ips(f))
    case WrappedKind => Printed(JArray([JString(r.strs(f))]), html)
    case ServicesKind => ServiceArray(r.services(f), html)
    case PtreeKind(attr) =>
      match r.ptree
      case None => Rendered("", None)
      case Some(ptree) => Printed(PtreeValue(attr, ptree), html)
  }

  /** The condition under which the text of a field is JSON. */
  predicate Separable(r: Rec, f: Field)
  {
    match f.kind
    case IPArrayKind => |r.ips(f)| <= 1
    case ServicesKind => |r.services(f)| <= 1 && forall i :: 0 <= i < |r.services(f)| ==> |r.services(f)[i].clusterIP| <= 1
    case PtreeKind(_) => r.ptree.Some?
    case _ => true
  }

  // ------------------------------------------------------------------
  // Every rendering is either its value's text or unreadable.

  lemma IPTextIsPlain(ip: int)
    ensures forall c: char :: c in IPText(ip) ==> IsPlain(c, true)
  {
  }

  lemma {:induction false} PlainEscape(s: string, html: bool)
    requires forall c: char :: c in s ==> IsPlain(c, true)
    ensures Escape(s, html) == s
  {
    if s != "" {
      assert s[0] in s && IsPlain(s[0], html);
      assert Step(s) == 1;
      PlainEscape(s[1..], html);
      assert s[..1] + s[1..] == s;
    }
  }

  lemma PlainQuote(s: string, html: bool)
    requires forall c: char :: c in s ==> IsPlain(c, true)
    ensures Quote(s, html) == "\"" + s + "\""
  {
    PlainEscape(s, html);
  }

  lemma QuotedAtValue(s: string, html: bool)
    ensures forall tail :: AtValue(Quote(s, html), tail)
  {
    forall tail ensures AtValue(Quote(s, html), tail) {
      StringStep(s, html, tail);
    }
  }

  lemma ObjectAtValue(ps: seq<Piece>, html: bool)
    requires ps != [] && AllRender(ps, html)
    ensures forall tail :: AtValue(ObjectText(ps, html), tail)
  {
    forall tail ensures AtValue(ObjectText(ps, html), tail) {
      ReadObject(ps, html, tail);
    }
  }

  lemma ShortList(text: string, v: Json, html: bool)
    requires text == Print(v, html)
    ensures ListText([text]) == Print(JArray([v]), html)
    ensures ListText([]) == Print(JArray([]), html)
  {
    RunTogetherOne(text);
    Associate("[", text, "]");
  }

  lemma IPArrayRenders(ips: seq<int>, html: bool)
    ensures Renders(IPArray(ips).text, IPArray(ips).value, html)
  {
    var texts := IPStrings(ips);
    if ips != [] {
      IPTextIsPlain(ips[0]);
      PlainQuote(IPText(ips[0]), html);
    }
    if |ips| >= 2 {
      QuotedAtValue(IPText(ips[0]), html);
      forall rest | Separates(rest) ensures StuckAt(ListText(texts), rest) {
        TwoRunTogether(texts, rest);
      }
    } else if |ips| == 1 {
      assert texts == [texts[0]];
      ShortList(texts[0], JString(IPText(ips[0])), html);
    } else {
      assert texts == [];
      ShortList(Print(JNull, html), JNull, html);
    }
  }

  lemma PortWellFormed(p: Port)
    ensures WellFormed(PortObject(p))
  {
    IntIsNumber(p.port);
    IntIsNumber(p.targetPort);
    IntIsNumber(p.nodePort);
  }

  lemma PortsWellFormed(ports: seq<Port>)
    ensures WellFormed(JArray(Ports(ports)))
  {
    forall i | 0 <= i < |ports| ensures WellFormed(Ports(ports)[i]) {
      PortWellFormed(ports[i]);
    }
  }

  ghost predicate PieceRenders(p: Piece, html: bool)
  {
    Renders(p.text, p.value, html)
  }

  lemma PrintedRenders(key: string, v: Json, html: bool)
    requires WellFormed(v)
    ensures PieceRenders(Of(key, Printed(v, html)), html)
  {
  }

  lemma FivePieces(a: Piece, b: Piece, c: Piece, d: Piece, e: Piece, html: bool)
    requires PieceRenders(a, html) && PieceRenders(b, html) && PieceRenders(c, html)
    requires PieceRenders(d, html) && PieceRenders(e, html)
    requires a.value.Some? && b.value.Some? && c.value.Some? && e.value.Some?
    ensures AllRender([a, b, c, d, e], html)
    ensures Readable([a, b, c, d, e]) <==> d.value.Some?
  {
    assert [a, b, c, d, e][3] == d;
  }

  lemma ServicePiecesRender(s: Service, html: bool)
    ensures AllRender(ServicePieces(s, html), html)
    ensures Readable(ServicePieces(s, html)) <==> |s.clusterIP| <= 1
  {
    var ports := JArray(Ports(s.ports));
    IPArrayRenders(s.clusterIP, html);
    PortsWellFormed(s.ports);
    PrintedRenders("id", JString(s.id), html);
    PrintedRenders("name", JString(s.name), html);
    PrintedRenders("namespace", JString(s.ns), html);
    PrintedRenders("ports", ports, html);
    FivePieces(Of("id", Printed(JString(s.id), html)), Of("name", Printed(JString(s.name), html)),
               Of("namespace", Printed(JString(s.ns), html)), Of("clusterIP", IPArray(s.clusterIP)),
               Of("ports", Printed(ports, html)), html);
  }

  lemma ManyServicesStuck(svcs: seq<Service>, html: bool)
    requires |svcs| >= 2
    ensures Unreadable(ListText(ServiceTexts(svcs, html)))
  {
    var texts := ServiceTexts(svcs, html);
    ServicePiecesRender(svcs[0], html);
    ObjectAtValue(ServicePieces(svcs[0], html), html);
    forall rest | Separates(rest) ensures StuckAt(ListText(texts), rest) {
      TwoRunTogether(texts, rest);
    }
  }

  lemma NoServiceRenders(html: bool)
    ensures Renders(ServiceArray([], html).text, Some(JArray([])), html)
  {
    assert ServiceTexts([], html) == [];
    ShortList(Print(JNull, html), JNull, html);
  }

  /** One service is a list of one object, when that can be read. */
  lemma OneServiceArray(s: Service, html: bool)
    ensures var ps := ServicePieces(s, html);
            ServiceArray([s], html)
            == Rendered(ListText([ObjectText(ps, html)]), if Readable(ps) then Some(JArray([ObjectValue(ps).value])) else None)
  {
    assert ServiceTexts([s], html) == [ObjectText(ServicePieces(s, html), html)];
  }

  lemma ServiceArrayRenders(svcs: seq<Service>, html: bool)
    ensures Renders(ServiceArray(svcs, html).text, ServiceArray(svcs, html).value, html)
    ensures ServiceArray(svcs, html).value.Some? <==>
            |svcs| <= 1 && forall i :: 0 <= i < |svcs| ==> |svcs[i].clusterIP| <= 1
  {
    if |svcs| >= 2 {
      ManyServicesStuck(svcs, html);
    } else if |svcs| == 1 {
      assert svcs == [svcs[0]];
      OneServiceArray(svcs[0], html);
      OneServiceRenders(svcs[0], html);
      ServicePiecesRender(svcs[0], html);
    } else {
      assert svcs == [];
      NoServiceRenders(html);
    }
  }

  lemma OneServiceRenders(s: Service, html: bool)
    ensures var ps := ServicePieces(s, html);
            Renders(ListText([ObjectText(ps, html)]),
                    if Readable(ps) then Some(JArray([ObjectValue(ps).value])) else None, html)
  {
    var ps := ServicePieces(s, html);
    var text := ObjectText(ps, html);
    ServicePiecesRender(s, html);
    ObjectRenders(ps, html);
    RunTogetherOne(text);
    if Readable(ps) {
      ShortList(text, ObjectValue(ps).value, html);
    } else {
      forall rest | Separates(rest) ensures StuckAt(ListText([text]), rest) {
        var next := "]" + rest;
        RegroupInner("[", text, "]", rest);
        ArrayStep(text + next);
        ReadObject(ps, html, next);
        assert (text + next)[0] == '{';
      }
    }
  }

  lemma AncestorsWellFormed(attr: PtreeAttr, ptree: seq<Proc>)
    ensures WellFormed(JArray(PtreeElements(attr, ptree)))
  {
    var es := PtreeElements(attr, ptree);
    forall i | 0 <= i < |es| ensures WellFormed(es[i]) {
      IntIsNumber(ptree[i].pid);
    }
  }

  lemma ParentWellFormed(attr: PtreeAttr, ptree: seq<Proc>)
    requires !attr.ProcAName? && !attr.ProcAExe? && !attr.ProcACmdLine? && !attr.ProcAPID?
    ensures WellFormed(PtreeValue(attr, ptree))
  {
    IntIsNumber(0);
    if |ptree| > 1 {
      IntIsNumber(ptree[1].uid);
      IntIsNumber(ptree[1].gid);
    }
  }

  lemma PtreeWellFormed(attr: PtreeAttr, ptree: seq<Proc>)
    ensures WellFormed(PtreeValue(attr, ptree))
  {
    if attr.ProcAName? || attr.ProcAExe? || attr.ProcACmdLine? || attr.ProcAPID? {
      AncestorsWellFormed(attr, ptree);
    } else {
      ParentWellFormed(attr, ptree);
    }
  }

  ghost predicate RendersOk(r: Rendered, html: bool)
  {
    Renders(r.text, r.value, html)
  }

  lemma PrintedOk(v: Json, html: bool)
    requires WellFormed(v)
    ensures RendersOk(Printed(v, html), html)
  {
  }

  lemma PairOk(x: Json, y: Json, html: bool)
    requires WellFormed(x) && WellFormed(y)
    ensures RendersOk(Printed(JArray([x, y]), html), html)
  {
    PrintedOk(JArray([x, y]), html);
  }

  lemma PtreeOk(r: Rec, f: Field, html: bool)
    requires f.kind.PtreeKind?
    ensures RendersOk(FieldValue(r, f, html), html)
  {
    if r.ptree.Some? {
      PtreeWellFormed(f.kind.attr, r.ptree.value);
      PrintedOk(PtreeValue(f.kind.attr, r.ptree.value), html);
    } else {
      forall rest | Separates(rest) ensures StuckAt("", rest) {
        assert "" + rest == rest && SkipSpace(rest) == rest;
      }
    }
  }

  /** A field's text is its value's text, or no value at all when its condition fails. */
  lemma FieldRenders(r: Rec, f: Field, html: bool)
    ensures RendersOk(FieldValue(r, f, html), html)
    ensures FieldValue(r, f, html).value.Some? <==> Separable(r, f)
  {
    match f.kind
    case StrKind => PrintedOk(JString(TrimBoundingQuotes(r.strs(f))), html);
    case IntKind =>
      IntIsNumber(r.ints(f));
      PrintedOk(Int(r.ints(f)), html);
    case BoolKind => PrintedOk(JBool(r.bools(f)), html);
    case OpFlagsKind => PrintedOk(JArray(Strings(r.flags(f))), html);
    case OpenFlagsKind =>
      PairOk(JString(IPText(r.srcIP)), JString(IPText(r.dstIP)), html);
      PrintedOk(JArray(Strings(r.flags(f))), html);
    case PortsKind =>
      IntIsNumber(r.srcPort);
      IntIsNumber(r.dstPort);
      PairOk(Int(r.srcPort), Int(r.dstPort), html);
    case IPArrayKind => IPArrayRenders(r.ips(f), html);
    case WrappedKind => PrintedOk(JArray([JString(r.strs(f))]), html);
    case ServicesKind => ServiceArrayRenders(r.services(f), html);
    case PtreeKind(_) => PtreeOk(r, f, html);
  }
}
