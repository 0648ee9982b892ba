/**
 JSON texts: the canonical rendering of a value, and a reader of sections 2 to 7
 of RFC 8259 that recovers the value.
 */
module Json {
  import opened Text
  import opened JsonString

  datatype Json =
    | JString(s: string)
    | JNumber(literal: string)
    | JBool(b: bool)
    | JNull
    | JArray(elements: seq<Json>)
    | JObject(members: seq<Member>)

  datatype Member = Member(key: string, value: Json)

  // ------------------------------------------------------------------
  // Numbers (section 6).

  predicate IsNumberChar(c: char)
  {
    '0' <= c <= '9' || c == '-' || c == '+' || c == '.' || c == 'e' || c == 'E'
  }

  function DigitRun(s: string): (k: nat)
    ensures k <= |s|
    ensures IsDigits(s[..k])
    ensures k < |s| ==> !('0' <= s[k] <= '9')
  {
    if s == "" || !('0' <= s[0] <= '9') then 0 else
      var k := DigitRun(s[1..]);
      assert s[..k + 1] == [s[0]] + s[1..][..k];
      k + 1
  }

  predicate IsExponent(s: string)
  {
    s == "" ||
    ((s[0] == 'e' || s[0] == 'E') &&
     var digits := if |s| > 1 && (s[1] == '+' || s[1] == '-') then s[2..] else s[1..];
     digits != "" && DigitRun(digits) == |digits|)
  }

  predicate IsFraction(s: string)
  {
    if s != "" && s[0] == '.' then DigitRun(s[1..]) > 0 && IsExponent(s[1..][DigitRun(s[1..])..]) else IsExponent(s)
  }

  /** `[ minus ] int [ frac ] [ exp ]` */
  predicate IsNumber(s: string)
  {
    if s != "" && s[0] == '-' then IsUnsigned(s[1..]) else IsUnsigned(s)
  }

  predicate IsUnsigned(s: string)
  {
    var k := DigitRun(s);
    k > 0 && (s[0] == '0' ==> k == 1) && IsFraction(s[k..])
  }

  /** The length of the longest run of characters that numbers are made of. */
  function NumberRun(s: string): (k: nat)
    ensures k <= |s|
    ensures s != "" && IsNumberChar(s[0]) ==> k > 0
  {
    if s == "" || !IsNumberChar(s[0]) then 0 else 1 + NumberRun(s[1..])
  }

  // ------------------------------------------------------------------
  // Reading.

  predicate IsSpace(c: char)
  {
    c == ' ' || c == '\t' || c == '\n' || c == '\r'
  }

  function SkipSpace(s: string): (r: string)
    ensures |r| <= |s|
  {
    if s != "" && IsSpace(s[0]) then SkipSpace(s[1..]) else s
  }

  type Parsed<T> = Option<(T, string)>

  function ParseLiteral(s: string, word: string, v: Json): (r: Parsed<Json>)
    requires word != ""
    ensures r.Some? ==> |r.value.1| < |s|
  {
    if HasPrefix(s, word) then Some((v, s[|word|..])) else None
  }

  function ParseNumber(s: string): (r: Parsed<Json>)
    ensures r.Some? ==> |r.value.1| < |s|
  {
    var k := NumberRun(s);
    if k > 0 && IsNumber(s[..k]) then Some((JNumber(s[..k]), s[k..])) else None
  }

  function ParseQuoted(s: string): (r: Parsed<string>)
    ensures r.Some? ==> |r.value.1| < |s|
  {
    if s == "" || s[0] != '"' then None else ScanString(s[1..])
  }

  function ParseValue(s: string): (r: Parsed<Json>)
    ensures r.Some? ==> |r.value.1| < |s|
    decreases |s|, 3
  {
    var t := SkipSpace(s);
    if t == "" then None
    else if t[0] == '"' then
      match ParseQuoted(t)
      case None => None
      case Some((text, rest)) => Some((JString(text), rest))
    else if t[0] == '[' then ParseArray(t[1..])
    else if t[0] == '{' then ParseObject(t[1..])
    else if t[0] == 't' then ParseLiteral(t, "true", JBool(true))
    else if t[0] == 'f' then ParseLiteral(t, "false", JBool(false))
    else if t[0] == 'n' then ParseLiteral(t, "null", JNull)
    else ParseNumber(t)
  }

  function ParseArray(s: string): (r: Parsed<Json>)
    ensures r.Some? ==> |r.value.1| < |s|
    decreases |s|, 5
  {
    var t := SkipSpace(s);
    if t != "" && t[0] == ']' then Some((JArray([]), t[1..]))
    else
      match ParseElements(s)
      case None => None
      case Some((elements, rest)) => Some((JArray(elements), rest))
  }

  /** One or more elements and the closing bracket. */
  function ParseElements(s: string): (r: Parsed<seq<Json>>)
    ensures r.Some? ==> |r.value.1| < |s|
    decreases |s|, 4
  {
    match ParseValue(s)
    case None => None
    case Some((v, rest)) =>
      var t := SkipSpace(rest);
      if t == "" then None
      else if t[0] == ']' then Some(([v], t[1..]))
      else if t[0] == ',' then
        match ParseElements(t[1..])
        case None => None
        case Some((vs, rest')) => Some(([v] + vs, rest'))
      else None
  }

  function ParseObject(s: string): (r: Parsed<Json>)
    ensures r.Some? ==> |r.value.1| < |s|
    decreases |s|, 5
  {
    var t := SkipSpace(s);
    if t != "" && t[0] == '}' then Some((JObject([]), t[1..]))
    else
      match ParseMembers(s)
      case None => None
      case Some((members, rest)) => Some((JObject(members), rest))
  }

  function ParseMember(s: string): (r: Parsed<Member>)
    ensures r.Some? ==> |r.value.1| < |s|
    decreases |s|, 3
  {
    match ParseQuoted(SkipSpace(s))
    case None => None
    case Some((key, rest)) =>
      var t := SkipSpace(rest);
      if t == "" || t[0] != ':' then None
      else
        match ParseValue(t[1..])
        case None => None
        case Some((v, rest')) => Some((Member(key, v), rest'))
  }

  /** One or more members and the closing brace. */
  function ParseMembers(s: string): (r: Parsed<seq<Member>>)
    ensures r.Some? ==> |r.value.1| < |s|
    decreases |s|, 4
  {
    match ParseMember(s)
    case None => None
    case Some((m, rest)) =>
      var t := SkipSpace(rest);
      if t == "" then None
      else if t[0] == '}' then Some(([m], t[1..]))
      else if t[0] == ',' then
        match ParseMembers(t[1..])
        case None => None
        case Some((ms, rest')) => Some(([m] + ms, rest'))
      else None
  }

  /** A JSON text (section 2): one value, with nothing but white space around it. */
  function ParseText(s: string): Option<Json>
  {
    match ParseValue(s)
    case Some((v, rest)) => if SkipSpace(rest) == "" then Some(v) else None
    case None => None
  }

  // ------------------------------------------------------------------
  // Writing.

  function Quote(s: string, html: bool): string
  {
    "\"" + Escape(s, html) + "\""
  }

  function Print(v: Json, html: bool): string
    decreases v, 0
  {
    match v
    case JString(s) => Quote(s, html)
    case JNumber(literal) => literal
    case JBool(b) => if b then "true" else "false"
    case JNull => "null"
    case JArray(es) => "[" + PrintElements(es, html) + "]"
    case JObject(ms) => "{" + PrintMembers(ms, html) + "}"
  }

  function PrintElements(es: seq<Json>, html: bool): string
    decreases es, 1
  {
    if es == [] then ""
    else if |es| == 1 then Print(es[0], html)
    else Print(es[0], html) + "," + PrintElements(es[1..], html)
  }

  function PrintMember(m: Member, html: bool): string
    decreases m, 1
  {
    Quote(m.key, html) + ":" + Print(m.value, html)
  }

  function PrintMembers(ms: seq<Member>, html: bool): string
    decreases ms, 2
  {
    if ms == [] then ""
    else if |ms| == 1 then PrintMember(ms[0], html)
    else PrintMember(ms[0], html) + "," + PrintMembers(ms[1..], html)
  }

  /** Numbers in the value are numbers of the grammar. */
  predicate WellFormed(v: Json)
    decreases v, 0
  {
    match v
    case JNumber(literal) => IsNumber(literal)
    case JArray(es) => forall i :: 0 <= i < |es| ==> WellFormed(es[i])
    case JObject(ms) => forall i :: 0 <= i < |ms| ==> WellFormed(ms[i].value)
    case _ => true
  }

  /** The value as text can carry it: every string with its undecodable bytes replaced. */
  function Clean(v: Json): Json
    decreases v, 0
  {
    match v
    case JString(s) => JString(Sanitize(s))
    case JArray(es) => JArray(CleanElements(es))
    case JObject(ms) => JObject(CleanMembers(ms))
    case _ => v
  }

  function CleanElements(es: seq<Json>): seq<Json>
    decreases es, 1
  {
    if es == [] then [] else [Clean(es[0])] + CleanElements(es[1..])
  }

  function CleanMembers(ms: seq<Member>): seq<Member>
    decreases ms, 1
  {
    if ms == [] then [] else [Member(Sanitize(ms[0].key), Clean(ms[0].value))] + CleanMembers(ms[1..])
  }

  // ------------------------------------------------------------------
  // Whatever is written is read back.

  predicate EndsValue(rest: string)
  {
    rest == "" || !IsNumberChar(rest[0])
  }

  predicate NumberChars(s: string)
  {
    forall i :: 0 <= i < |s| ==> IsNumberChar(s[i])
  }

  lemma NumberCharsConcat(a: string, b: string)
    requires NumberChars(a) && NumberChars(b)
    ensures NumberChars(a + b)
  {
  }

  lemma NumberOfChars(s: string)
    requires IsNumber(s)
    ensures NumberChars(s)
  {
    if s[0] == '-' {
      UnsignedOfChars(s[1..]);
      NumberCharsConcat("-", s[1..]);
      assert s == "-" + s[1..];
    } else {
      UnsignedOfChars(s);
    }
  }

  lemma UnsignedOfChars(s: string)
    requires IsUnsigned(s)
    ensures NumberChars(s)
  {
    var k := DigitRun(s);
    FractionOfChars(s[k..]);
    NumberCharsConcat(s[..k], s[k..]);
    assert s[..k] + s[k..] == s;
  }

  lemma FractionOfChars(s: string)
    requires IsFraction(s)
    ensures NumberChars(s)
  {
    if s != "" && s[0] == '.' {
      var digits := s[1..];
      var k := DigitRun(digits);
      ExponentOfChars(digits[k..]);
      NumberCharsConcat(digits[..k], digits[k..]);
      assert digits[..k] + digits[k..] == digits;
      NumberCharsConcat(".", digits);
      assert s == "." + digits;
    } else {
      ExponentOfChars(s);
    }
  }

  lemma ExponentOfChars(s: string)
    requires IsExponent(s)
    ensures NumberChars(s)
  {
    if s != "" {
      var digits := if |s| > 1 && (s[1] == '+' || s[1] == '-') then s[2..] else s[1..];
      assert digits[..|digits|] == digits;
      NumberCharsConcat(s[..|s| - |digits|], digits);
      assert s == s[..|s| - |digits|] + digits;
    }
  }

  lemma {:induction false} NumberRunStops(s: string, rest: string)
    requires NumberChars(s) && EndsValue(rest)
    ensures NumberRun(s + rest) == |s|
  {
    if s == "" {
      assert s + rest == rest;
    } else {
      assert (s + rest)[1..] == s[1..] + rest;
      NumberRunStops(s[1..], rest);
    }
  }

  lemma NumberStarts(literal: string)
    requires IsNumber(literal)
    ensures literal[0] == '-' || '0' <= literal[0] <= '9'
  {
  }

  lemma NumberRoundTrip(literal: string, rest: string)
    requires IsNumber(literal) && EndsValue(rest)
    ensures ParseValue(literal + rest) == Some((JNumber(literal), rest))
  {
    var t := literal + rest;
    assert ParseNumber(t) == Some((JNumber(literal), rest)) by {
      NumberOfChars(literal);
      NumberRunStops(literal, rest);
      assert t[..|literal|] == literal && t[|literal|..] == rest;
    }
    assert ParseValue(t) == ParseNumber(t) by {
      NumberStarts(literal);
      assert t[0] == literal[0] && SkipSpace(t) == t;
    }
  }

  lemma QuoteRoundTrip(s: string, html: bool, rest: string)
    ensures ParseQuoted(Quote(s, html) + rest) == Some((Sanitize(s), rest))
    ensures Quote(s, html)[0] == '"'
  {
    var close := "\"" + rest;
    var t := Quote(s, html) + rest;
    assert t[1..] == Escape(s, html) + close;
    EscapeRoundTrip(s, html, close);
    assert close[1..] == rest;
  }

  // What one turn of the reader does with text that is already known to parse.

  lemma ArrayStep(body: string)
    ensures ParseValue("[" + body) == ParseArray(body)
  {
    assert ("[" + body)[1..] == body;
  }

  lemma ObjectStep(body: string)
    ensures ParseValue("{" + body) == ParseObject(body)
  {
    assert ("{" + body)[1..] == body;
  }

  lemma WordStep(v: Json, html: bool, rest: string)
    requires v.JBool? || v.JNull?
    ensures ParseValue(Print(v, html) + rest) == Some((v, rest))
  {
    var word := Print(v, html);
    assert (word + rest)[0] == word[0] && (word + rest)[..|word|] == word && (word + rest)[|word|..] == rest;
  }

  lemma StringStep(s: string, html: bool, rest: string)
    ensures ParseValue(Quote(s, html) + rest) == Some((JString(Sanitize(s)), rest))
  {
    QuoteRoundTrip(s, html, rest);
    assert (Quote(s, html) + rest)[0] == '"';
  }

  lemma LastElementStep(text: string, v: Json, rest: string)
    requires ParseValue(text) == Some((v, "]" + rest))
    ensures ParseElements(text) == Some(([v], rest))
  {
    assert ("]" + rest)[1..] == rest;
  }

  lemma ElementStep(text: string, v: Json, more: string)
    requires ParseValue(text) == Some((v, "," + more)) && ParseElements(more).Some?
    ensures ParseElements(text) == Some(([v] + ParseElements(more).value.0, ParseElements(more).value.1))
  {
    assert ("," + more)[1..] == more;
  }

  lemma LastMemberStep(text: string, m: Member, rest: string)
    requires ParseMember(text) == Some((m, "}" + rest))
    ensures ParseMembers(text) == Some(([m], rest))
  {
    assert ("}" + rest)[1..] == rest;
  }

  lemma MemberStep(text: string, m: Member, more: string)
    requires ParseMember(text) == Some((m, "," + more)) && ParseMembers(more).Some?
    ensures ParseMembers(text) == Some(([m] + ParseMembers(more).value.0, ParseMembers(more).value.1))
  {
    assert ("," + more)[1..] == more;
  }

  lemma KeyStep(key: string, html: bool, text: string)
    requires ParseValue(text).Some?
    ensures ParseMember(Quote(key, html) + (":" + text)) ==
            Some((Member(Sanitize(key), ParseValue(text).value.0), ParseValue(text).value.1))
  {
    var tail := ":" + text;
    var t := Quote(key, html) + tail;
    QuoteRoundTrip(key, html, tail);
    assert t[0] == '"' && SkipSpace(t) == t;
    assert SkipSpace(tail) == tail && tail[1..] == text;
  }

  lemma {:induction false} ValueRoundTrip(v: Json, html: bool, rest: string)
    requires WellFormed(v) && EndsValue(rest)
    ensures ParseValue(Print(v, html) + rest) == Some((Clean(v), rest))
    decreases v, 0
  {
    match v
    case JString(s) => StringStep(s, html, rest);
    case JNumber(literal) => NumberRoundTrip(literal, rest);
    case JBool(_) => WordStep(v, html, rest);
    case JNull => WordStep(v, html, rest);
    case JArray(es) =>
      ArrayRoundTrip(es, html, rest);
      ArrayStep(PrintElements(es, html) + ("]" + rest));
      Regroup("[", PrintElements(es, html), "]", rest);
    case JObject(ms) =>
      ObjectRoundTrip(ms, html, rest);
      ObjectStep(PrintMembers(ms, html) + ("}" + rest));
      Regroup("{", PrintMembers(ms, html), "}", rest);
  }

  lemma FirstOfValue(v: Json, html: bool, rest: string)
    requires WellFormed(v)
    ensures var t := Print(v, html) + rest;
            t != "" && !IsSpace(t[0]) && t[0] != ']' && t[0] != '}' && t[0] != ','
  {
    match v
    case JNumber(literal) =>
      NumberOfChars(literal);
    case _ =>
  }

  lemma {:induction false} ArrayRoundTrip(es: seq<Json>, html: bool, rest: string)
    requires forall i :: 0 <= i < |es| ==> WellFormed(es[i])
    ensures ParseArray(PrintElements(es, html) + ("]" + rest)) == Some((JArray(CleanElements(es)), rest))
    decreases es, 2
  {
    var t := PrintElements(es, html) + ("]" + rest);
    if es == [] {
      assert t == "]" + rest && SkipSpace(t) == t && t[1..] == rest;
    } else {
      ElementsRoundTrip(es, html, rest);
      ElementsStart(es, html, "]" + rest);
      assert SkipSpace(t) == t;
    }
  }

  lemma ElementsStart(es: seq<Json>, html: bool, rest: string)
    requires es != [] && WellFormed(es[0])
    ensures var t := PrintElements(es, html) + rest; t != "" && !IsSpace(t[0]) && t[0] != ']'
  {
    FirstOfValue(es[0], html, "");
    assert Print(es[0], html) + "" == Print(es[0], html);
  }

  lemma LastElement(e: Json, html: bool, rest: string)
    requires WellFormed(e)
    ensures ParseElements(Print(e, html) + ("]" + rest)) == Some(([Clean(e)], rest))
    decreases e, 1
  {
    ValueRoundTrip(e, html, "]" + rest);
    LastElementStep(Print(e, html) + ("]" + rest), Clean(e), rest);
  }

  lemma NextElement(e: Json, html: bool, more: string)
    requires WellFormed(e) && ParseElements(more).Some?
    ensures ParseElements(Print(e, html) + ("," + more)) ==
            Some(([Clean(e)] + ParseElements(more).value.0, ParseElements(more).value.1))
    decreases e, 1
  {
    ValueRoundTrip(e, html, "," + more);
    ElementStep(Print(e, html) + ("," + more), Clean(e), more);
  }

  lemma CleanOneElement(e: Json)
    ensures CleanElements([e]) == [Clean(e)]
  {
    assert [e][1..] == [];
  }

  lemma {:induction false} ElementsRoundTrip(es: seq<Json>, html: bool, rest: string)
    requires es != [] && forall i :: 0 <= i < |es| ==> WellFormed(es[i])
    ensures ParseElements(PrintElements(es, html) + ("]" + rest)) == Some((CleanElements(es), rest))
    decreases es, 1
  {
    if |es| == 1 {
      assert es == [es[0]];
      LastElement(es[0], html, rest);
      CleanOneElement(es[0]);
    } else {
      ElementsRoundTrip(es[1..], html, rest);
      NextElement(es[0], html, PrintElements(es[1..], html) + ("]" + rest));
      Regroup(Print(es[0], html), ",", PrintElements(es[1..], html), "]" + rest);
    }
  }

  lemma {:induction false} ObjectRoundTrip(ms: seq<Member>, html: bool, rest: string)
    requires forall i :: 0 <= i < |ms| ==> WellFormed(ms[i].value)
    ensures ParseObject(PrintMembers(ms, html) + ("}" + rest)) == Some((JObject(CleanMembers(ms)), rest))
    decreases ms, 4
  {
    var t := PrintMembers(ms, html) + ("}" + rest);
    if ms == [] {
      assert t == "}" + rest && SkipSpace(t) == t && t[1..] == rest;
    } else {
      MembersRoundTrip(ms, html, rest);
      assert t[0] == '"' && SkipSpace(t) == t;
    }
  }

  lemma {:induction false} MemberRoundTrip(m: Member, html: bool, rest: string)
    requires WellFormed(m.value) && EndsValue(rest)
    ensures ParseMember(PrintMember(m, html) + rest) == Some((Member(Sanitize(m.key), Clean(m.value)), rest))
    decreases m, 2
  {
    var text := Print(m.value, html) + rest;
    ValueRoundTrip(m.value, html, rest);
    KeyStep(m.key, html, text);
    Regroup(Quote(m.key, html), ":", Print(m.value, html), rest);
  }

  function CleanMember(m: Member): Member
  {
    Member(Sanitize(m.key), Clean(m.value))
  }

  lemma LastMember(m: Member, html: bool, rest: string)
    requires WellFormed(m.value)
    ensures ParseMembers(PrintMember(m, html) + ("}" + rest)) == Some(([CleanMember(m)], rest))
    decreases m, 3
  {
    MemberRoundTrip(m, html, "}" + rest);
    LastMemberStep(PrintMember(m, html) + ("}" + rest), CleanMember(m), rest);
  }

  lemma NextMember(m: Member, html: bool, more: string)
    requires WellFormed(m.value) && ParseMembers(more).Some?
    ensures ParseMembers(PrintMember(m, html) + ("," + more)) ==
            Some(([CleanMember(m)] + ParseMembers(more).value.0, ParseMembers(more).value.1))
    decreases m, 3
  {
    MemberRoundTrip(m, html, "," + more);
    MemberStep(PrintMember(m, html) + ("," + more), CleanMember(m), more);
  }

  lemma CleanOneMember(m: Member)
    ensures CleanMembers([m]) == [CleanMember(m)]
  {
    assert [m][1..] == [];
  }

  lemma {:induction false} MembersRoundTrip(ms: seq<Member>, html: bool, rest: string)
    requires ms != [] && forall i :: 0 <= i < |ms| ==> WellFormed(ms[i].value)
    ensures ParseMembers(PrintMembers(ms, html) + ("}" + rest)) == Some((CleanMembers(ms), rest))
    decreases ms, 3
  {
    if |ms| == 1 {
      assert ms == [ms[0]];
      LastMember(ms[0], html, rest);
      CleanOneMember(ms[0]);
    } else {
      MembersRoundTrip(ms[1..], html, rest);
      NextMember(ms[0], html, PrintMembers(ms[1..], html) + ("}" + rest));
      Regroup(PrintMember(ms[0], html), ",", PrintMembers(ms[1..], html), "}" + rest);
    }
  }

  /** Printing a value gives one JSON text, and reading that text gives the value. */
  lemma TextRoundTrip(v: Json, html: bool)
    requires WellFormed(v)
    ensures ParseText(Print(v, html)) == Some(Clean(v))
  {
    ValueRoundTrip(v, html, "");
    assert Print(v, html) + "" == Print(v, html);
  }

  // ------------------------------------------------------------------
  // Appending to an open list.

  lemma {:induction false} ElementsAppend(es: seq<Json>, e: Json, html: bool)
    ensures PrintElements(es + [e], html) ==
            if es == [] then Print(e, html) else PrintElements(es, html) + "," + Print(e, html)
  {
    if |es| > 1 {
      assert (es + [e])[1..] == es[1..] + [e];
      ElementsAppend(es[1..], e, html);
    }
  }

  /** Decimal integers are numbers of the grammar. */
  lemma IntIsNumber(n: int)
    ensures IsNumber(FormatInt(n))
  {
    var digits := FormatNat(if n < 0 then -n else n);
    AllDigits(digits);
    assert digits[|digits|..] == "";
    if n < 0 {
      assert FormatInt(n)[1..] == digits;
    }
  }

  lemma {:induction false} AllDigits(s: string)
    requires IsDigits(s)
    ensures DigitRun(s) == |s|
  {
    if s != "" {
      AllDigits(s[1..]);
    }
  }
}
