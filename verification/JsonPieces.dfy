/**
 JSON texts put together from pieces, of which some may not be readable: what a
 reader makes of the whole, whatever the pieces are.
 */
module JsonPieces {
  import opened Text
  import opened JsonString
  import opened Json

  /** A member as written: its key, the text of its value, and the value meant by that text, if any. */
  datatype Piece = Piece(key: string, text: string, value: Option<Json>)

  predicate Separates(rest: string)
  {
    rest != "" && (rest[0] == ',' || rest[0] == '}')
  }

  predicate StuckAt(text: string, rest: string)
  {
    ParseValue(text + rest) == None
  }

  /** No separator that can follow makes the text a value. */
  ghost predicate Unreadable(text: string)
  {
    forall rest :: Separates(rest) ==> StuckAt(text, rest)
  }

  ghost predicate Renders(text: string, v: Option<Json>, html: bool)
  {
    match v
    case Some(j) => WellFormed(j) && text == Print(j, html)
    case None => Unreadable(text)
  }

  ghost predicate AllRender(ps: seq<Piece>, html: bool)
  {
    forall i :: 0 <= i < |ps| ==> Renders(ps[i].text, ps[i].value, html)
  }

  predicate Readable(ps: seq<Piece>)
  {
    forall i :: 0 <= i < |ps| ==> ps[i].value.Some?
  }

  function Members(ps: seq<Piece>): (ms: seq<Member>)
    requires Readable(ps)
    ensures |ms| == |ps|
    ensures forall i :: 0 <= i < |ps| ==> ms[i] == Member(ps[i].key, ps[i].value.value)
  {
    if ps == [] then [] else [Member(ps[0].key, ps[0].value.value)] + Members(ps[1..])
  }

  function PieceText(p: Piece, html: bool): string
  {
    Quote(p.key, html) + (":" + p.text)
  }

  /** Pieces separated by commas. */
  function Joined(ps: seq<Piece>, html: bool): string
  {
    if ps == [] then ""
    else if |ps| == 1 then PieceText(ps[0], html)
    else PieceText(ps[0], html) + ("," + Joined(ps[1..], html))
  }

  /** Pieces each followed by a comma. */
  function Terminated(ps: seq<Piece>, html: bool): string
  {
    if ps == [] then "" else PieceText(ps[0], html) + ("," + Terminated(ps[1..], html))
  }

  function ObjectText(ps: seq<Piece>, html: bool): string
  {
    "{" + (Joined(ps, html) + "}")
  }

  function ObjectValue(ps: seq<Piece>): Option<Json>
  {
    if Readable(ps) then Some(JObject(Members(ps))) else None
  }

  // ------------------------------------------------------------------
  // Appending.

  lemma {:induction false} TerminatedAppend(ps: seq<Piece>, p: Piece, html: bool)
    ensures Terminated(ps + [p], html) == Terminated(ps, html) + (PieceText(p, html) + ",")
  {
    if ps == [] {
      assert [p][1..] == [] && Terminated([], html) == "";
      assert PieceText(p, html) + ("," + "") == "" + (PieceText(p, html) + ",");
    } else {
      assert (ps + [p])[1..] == ps[1..] + [p];
      TerminatedAppend(ps[1..], p, html);
      RegroupInner(PieceText(ps[0], html), ",", Terminated(ps[1..], html), PieceText(p, html) + ",");
    }
  }

  lemma {:induction false} JoinedAppend(ps: seq<Piece>, p: Piece, html: bool)
    ensures Joined(ps + [p], html) == Terminated(ps, html) + PieceText(p, html)
    ensures ps != [] ==> Joined(ps + [p], html) == Joined(ps, html) + ("," + PieceText(p, html))
  {
    if ps == [] {
      assert "" + PieceText(p, html) == PieceText(p, html);
    } else {
      assert (ps + [p])[1..] == ps[1..] + [p];
      JoinedAppend(ps[1..], p, html);
      RegroupInner(PieceText(ps[0], html), ",", Terminated(ps[1..], html), PieceText(p, html));
      if |ps| > 1 {
        RegroupInner(PieceText(ps[0], html), ",", Joined(ps[1..], html), "," + PieceText(p, html));
      }
    }
  }

  // ------------------------------------------------------------------
  // Reading.

  lemma KeyStuck(key: string, html: bool, text: string)
    requires ParseValue(text) == None
    ensures ParseMember(Quote(key, html) + (":" + text)) == None
  {
    var tail := ":" + text;
    var t := Quote(key, html) + tail;
    QuoteRoundTrip(key, html, tail);
    assert t[0] == '"' && SkipSpace(t) == t;
    assert SkipSpace(tail) == tail && tail[1..] == text;
  }

  lemma ReadPiece(p: Piece, html: bool, rest: string)
    requires Renders(p.text, p.value, html) && Separates(rest)
    ensures ParseMember(PieceText(p, html) + rest) ==
            match p.value
            case Some(v) => Some((Member(Sanitize(p.key), Clean(v)), rest))
            case None => None
  {
    RegroupInner(Quote(p.key, html), ":", p.text, rest);
    match p.value
    case Some(v) =>
      ValueRoundTrip(v, html, rest);
      KeyStep(p.key, html, p.text + rest);
    case None =>
      assert StuckAt(p.text, rest);
      KeyStuck(p.key, html, p.text + rest);
  }

  lemma MembersStuck(text: string, more: string)
    requires ParseMember(text) == None || (ParseMember(text).value.1 == "," + more && ParseMembers(more) == None)
    ensures ParseMembers(text) == None
  {
    if ParseMember(text) != None {
      assert ("," + more)[1..] == more;
    }
  }

  function Rest(ps: seq<Piece>): seq<Piece>
    requires ps != []
  {
    ps[1..]
  }

  /** The members of an object are read back exactly when every piece is readable. */
  lemma {:induction false} ReadJoined(ps: seq<Piece>, html: bool, rest: string)
    requires ps != [] && AllRender(ps, html)
    ensures ParseMembers(Joined(ps, html) + ("}" + rest)) ==
            if Readable(ps) then Some((CleanMembers(Members(ps)), rest)) else None
  {
    var text := Joined(ps, html) + ("}" + rest);
    if |ps| == 1 {
      ReadPiece(ps[0], html, "}" + rest);
      if ps[0].value.Some? {
        LastMemberStep(text, Member(Sanitize(ps[0].key), Clean(ps[0].value.value)), rest);
        assert ps == [ps[0]] && Members(ps) == [Member(ps[0].key, ps[0].value.value)];
        CleanOneMember(Members(ps)[0]);
      } else {
        MembersStuck(text, "");
      }
    } else {
      var more := Joined(ps[1..], html) + ("}" + rest);
      RegroupInner(PieceText(ps[0], html), ",", Joined(ps[1..], html), "}" + rest);
      ReadPiece(ps[0], html, "," + more);
      ReadJoined(ps[1..], html, rest);
      ReadableTail(ps);
      if ps[0].value.Some? && Readable(ps[1..]) {
        MemberStep(text, Member(Sanitize(ps[0].key), Clean(ps[0].value.value)), more);
        CleanTail(ps);
      } else {
        MembersStuck(text, more);
      }
    }
  }

  lemma ReadableTail(ps: seq<Piece>)
    requires ps != []
    ensures Readable(ps) <==> ps[0].value.Some? && Readable(ps[1..])
  {
    if ps[0].value.Some? && Readable(ps[1..]) {
      forall i | 0 <= i < |ps| ensures ps[i].value.Some? {
        if i > 0 {
          assert ps[i] == ps[1..][i - 1];
        }
      }
    }
  }

  lemma CleanTail(ps: seq<Piece>)
    requires ps != [] && Readable(ps)
    ensures Readable(ps[1..])
    ensures CleanMembers(Members(ps)) ==
            [Member(Sanitize(ps[0].key), Clean(ps[0].value.value))] + CleanMembers(Members(ps[1..]))
  {
    ReadableTail(ps);
    var first := Member(ps[0].key, ps[0].value.value);
    assert Members(ps) == [first] + Members(ps[1..]);
    assert ([first] + Members(ps[1..]))[1..] == Members(ps[1..]);
  }

  /** Members that each end in a comma still need one more member. */
  lemma {:induction false} ReadTerminated(ps: seq<Piece>, html: bool, tail: string)
    requires AllRender(ps, html) && ParseMembers(tail) == None
    ensures ParseMembers(Terminated(ps, html) + tail) == None
  {
    if ps == [] {
      assert Terminated(ps, html) + tail == tail;
    } else {
      var more := Terminated(ps[1..], html) + tail;
      RegroupInner(PieceText(ps[0], html), ",", Terminated(ps[1..], html), tail);
      ReadPiece(ps[0], html, "," + more);
      ReadTerminated(ps[1..], html, tail);
      MembersStuck(Terminated(ps, html) + tail, more);
    }
  }

  lemma JoinedStart(ps: seq<Piece>, html: bool, rest: string)
    requires ps != []
    ensures var t := Joined(ps, html) + rest; t != "" && t[0] == '"'
  {
  }

  /** An object made of pieces is readable exactly when they all are. */
  lemma ReadObject(ps: seq<Piece>, html: bool, rest: string)
    requires ps != [] && AllRender(ps, html)
    ensures ParseValue(ObjectText(ps, html) + rest) ==
            if Readable(ps) then Some((Clean(JObject(Members(ps))), rest)) else None
  {
    var body := Joined(ps, html) + ("}" + rest);
    RegroupInner("{", Joined(ps, html), "}", rest);
    ObjectStep(body);
    ReadJoined(ps, html, rest);
    JoinedStart(ps, html, "}" + rest);
    assert SkipSpace(body) == body;
  }

  lemma {:induction false} JoinedPrints(ps: seq<Piece>, html: bool)
    requires AllRender(ps, html) && Readable(ps)
    ensures Joined(ps, html) == PrintMembers(Members(ps), html)
  {
    if ps != [] {
      var m := Member(ps[0].key, ps[0].value.value);
      Associate(Quote(m.key, html), ":", Print(m.value, html));
      if |ps| > 1 {
        JoinedPrints(ps[1..], html);
        assert Members(ps)[1..] == Members(ps[1..]);
        Associate(PrintMember(m, html), ",", PrintMembers(Members(ps[1..]), html));
      }
    }
  }

  lemma ObjectRenders(ps: seq<Piece>, html: bool)
    requires ps != [] && AllRender(ps, html)
    ensures Renders(ObjectText(ps, html), ObjectValue(ps), html)
  {
    if Readable(ps) {
      JoinedPrints(ps, html);
      Associate("{", PrintMembers(Members(ps), html), "}");
    } else {
      forall rest | Separates(rest) ensures StuckAt(ObjectText(ps, html), rest) {
        ReadObject(ps, html, rest);
      }
    }
  }

  // ------------------------------------------------------------------
  // Lists whose writer puts no commas in between.

  /** Elements one after the other. */
  function RunTogether(texts: seq<string>): string
  {
    if texts == [] then "" else RunTogether(texts[..|texts| - 1]) + texts[|texts| - 1]
  }

  function ListText(texts: seq<string>): string
  {
    "[" + (RunTogether(texts) + "]")
  }

  lemma RunTogetherOne(t: string)
    ensures RunTogether([t]) == t
  {
    assert [t][..0] == [] && RunTogether([]) == "";
  }

  lemma {:induction false} RunTogetherFirst(texts: seq<string>)
    requires texts != []
    ensures RunTogether(texts) == texts[0] + RunTogether(texts[1..])
  {
    var n := |texts| - 1;
    if n == 0 {
      assert texts == [texts[0]] && texts[1..] == [];
      RunTogetherOne(texts[0]);
    } else {
      RunTogetherFirst(texts[..n]);
      assert texts[..n][1..] == texts[1..][..n - 1];
      assert texts[1..][n - 1] == texts[n];
      Associate(texts[0], RunTogether(texts[..n][1..]), texts[n]);
    }
  }

  /** Two elements with nothing in between end every reading, whatever follows. */
  lemma TwoRunTogether(texts: seq<string>, rest: string)
    requires |texts| >= 2
    requires forall tail :: AtValue(texts[0], tail)
    requires texts[1] != "" && (texts[1][0] == '"' || texts[1][0] == '{')
    ensures ParseValue(ListText(texts) + rest) == None
  {
    var next := RunTogether(texts[1..]) + ("]" + rest);
    RunTogetherFirst(texts);
    RunTogetherFirst(texts[1..]);
    assert texts[1..][0] == texts[1];
    assert next != "" && next[0] == texts[1][0];
    var body := texts[0] + next;
    assert ListText(texts) + rest == "[" + body by {
      RegroupInner("[", RunTogether(texts), "]", rest);
      Associate(texts[0], RunTogether(texts[1..]), "]" + rest);
    }
    ArrayStep(body);
    assert AtValue(texts[0], next);
    assert SkipSpace(body) == body && body[0] != ']';
    assert SkipSpace(next) == next;
  }

  /** The text starts a value and is read up to its end, or not at all. */
  predicate AtValue(text: string, tail: string)
  {
    text != "" && (text[0] == '"' || text[0] == '{')
    && (ParseValue(text + tail).Some? ==> ParseValue(text + tail).value.1 == tail)
  }
}
