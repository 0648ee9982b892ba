/**
 JSON strings: the hand-written escaper, and a reader of string bodies that
 follows sections 7 and 8 of RFC 8259.

 A byte string is a `string` whose characters are bytes.
 */
module JsonString {
  import opened Text

  // ------------------------------------------------------------------
  // UTF-8 (RFC 3629, section 4).

  function Byte(s: string, i: nat): int
    requires i < |s|
  {
    s[i] as int
  }

  predicate IsTail(s: string, i: nat)
  {
    i < |s| && 0x80 <= Byte(s, i) <= 0xBF
  }

  /** The length of the well-formed sequence at the front of `s`, or 0 when there is none. */
  function RuneWidth(s: string): (w: nat)
    requires s != ""
    ensures w <= |s| && w <= 4
  {
    var b := Byte(s, 0);
    if b < 0x80 then 1
    else if 0xC2 <= b <= 0xDF then
      if IsTail(s, 1) then 2 else 0
    else if 0xE0 <= b <= 0xEF then
      if IsTail(s, 1) && IsTail(s, 2) && (b == 0xE0 ==> Byte(s, 1) >= 0xA0) && (b == 0xED ==> Byte(s, 1) <= 0x9F) then 3 else 0
    else if 0xF0 <= b <= 0xF4 then
      if IsTail(s, 1) && IsTail(s, 2) && IsTail(s, 3) && (b == 0xF0 ==> Byte(s, 1) >= 0x90) && (b == 0xF4 ==> Byte(s, 1) <= 0x8F) then 4 else 0
    else 0
  }

  /** The code point of the sequence at the front of `s`. */
  function Rune(s: string): int
    requires s != "" && RuneWidth(s) > 0
  {
    match RuneWidth(s)
    case 1 => Byte(s, 0)
    case 2 => (Byte(s, 0) - 0xC0) * 0x40 + (Byte(s, 1) - 0x80)
    case 3 => (Byte(s, 0) - 0xE0) * 0x1000 + (Byte(s, 1) - 0x80) * 0x40 + (Byte(s, 2) - 0x80)
    case 4 => (Byte(s, 0) - 0xF0) * 0x40000 + (Byte(s, 1) - 0x80) * 0x1000 + (Byte(s, 2) - 0x80) * 0x40 + (Byte(s, 3) - 0x80)
  }

  /** The UTF-8 sequence of a code point. */
  function Encode(r: int): string
    requires 0 <= r < 0x110000
  {
    if r < 0x80 then [r as char]
    else if r < 0x800 then [(0xC0 + r / 0x40) as char, (0x80 + r % 0x40) as char]
    else if r < 0x10000 then [(0xE0 + r / 0x1000) as char, (0x80 + r / 0x40 % 0x40) as char, (0x80 + r % 0x40) as char]
    else [(0xF0 + r / 0x40000) as char, (0x80 + r / 0x1000 % 0x40) as char, (0x80 + r / 0x40 % 0x40) as char, (0x80 + r % 0x40) as char]
  }

  /** How far one step of decoding moves: an undecodable byte is one step of its own. */
  function Step(s: string): (w: nat)
    requires s != ""
    ensures 1 <= w <= |s|
  {
    if RuneWidth(s) == 0 then 1 else RuneWidth(s)
  }

  const REPLACEMENT := Encode(0xFFFD)

  function SanitizeUnit(s: string): string
    requires s != ""
  {
    if RuneWidth(s) == 0 then REPLACEMENT else s[..RuneWidth(s)]
  }

  /** `s` with every undecodable byte replaced by U+FFFD. */
  function Sanitize(s: string): string
  {
    if s == "" then "" else SanitizeUnit(s) + Sanitize(s[Step(s)..])
  }

  predicate IsUtf8(s: string)
  {
    s == "" || (RuneWidth(s) > 0 && IsUtf8(s[RuneWidth(s)..]))
  }

  // ------------------------------------------------------------------
  // Escaping.

  const HEX_DIGITS := "0123456789abcdef"

  /** The two escape tables: with `html`, `&`, `<` and `>` are escaped as well. */
  predicate IsPlain(c: char, html: bool)
  {
    0x20 <= c as int < 0x80 && c != '"' && c != '\\' && !(html && (c == '&' || c == '<' || c == '>'))
  }

  function EscapeAscii(c: char): string
    requires c as int < 0x80
  {
    match c
    case '\t' => "\\t"
    case '\r' => "\\r"
    case '\n' => "\\n"
    case '\\' => "\\\\"
    case '"' => "\\\""
    case _ => "\\u00" + [HEX_DIGITS[c as int / 16], HEX_DIGITS[c as int % 16]]
  }

  /** What one step of decoding is written as. */
  function EscapeUnit(s: string, html: bool): string
    requires s != ""
  {
    if s[0] as int < 0x80 then
      if IsPlain(s[0], html) then s[..1] else EscapeAscii(s[0])
    else if RuneWidth(s) == 0 then "\\ufffd"
    else if Rune(s) == 0x2028 || Rune(s) == 0x2029 then "\\u202" + [HEX_DIGITS[Rune(s) % 16]]
    else s[..RuneWidth(s)]
  }

  function Escape(s: string, html: bool): string
  {
    if s == "" then "" else EscapeUnit(s, html) + Escape(s[Step(s)..], html)
  }

  /** A writer that only appends. */
  class Writer {
    const noEscapeHTML: bool
    var buffer: string

    constructor (noEscapeHTML: bool)
      ensures buffer == "" && this.noEscapeHTML == noEscapeHTML
    {
      this.noEscapeHTML := noEscapeHTML;
      buffer := "";
    }

    method RawString(s: string)
      modifies this
      ensures buffer == old(buffer) + s
    {
      buffer := buffer + s;
    }

    /**
     One turn of the loop of `stringNoQuotes` at position `i`, where `s[p..i]` is
     still to be copied: a unit that needs no escaping extends the run, any other
     ends it.
     */
    method Turn(s: string, p: nat, i: nat) returns (p': nat, i': nat)
      requires p <= i < |s|
      modifies this
      ensures p' <= i' == i + Step(s[i..]) <= |s|
      ensures buffer + s[p'..i'] == old(buffer) + s[p..i] + EscapeUnit(s[i..], !noEscapeHTML)
    {
      var c := s[i];
      if c as int < 0x80 {
        i' := i + 1;
        if IsPlain(c, !noEscapeHTML) {
          p' := p;
        } else {
          buffer := buffer + s[p..i];
          buffer := buffer + EscapeAscii(c);
          p' := i';
        }
      } else if RuneWidth(s[i..]) == 0 {
        buffer := buffer + s[p..i];
        buffer := buffer + "\\ufffd";
        i' := i + 1;
        p' := i';
      } else {
        var rune, width := Rune(s[i..]), RuneWidth(s[i..]);
        i' := i + width;
        if rune == 0x2028 || rune == 0x2029 {
          buffer := buffer + s[p..i];
          buffer := buffer + ("\\u202" + [HEX_DIGITS[rune % 16]]);
          p' := i';
        } else {
          p' := p;
        }
      }
      if p' == p {
        RunGrows(buffer, s, p, i, i' - i);
      } else {
        assert s[p'..i'] == "" && buffer + "" == buffer;
      }
    }

    /**
     `stringNoQuotes`: copies runs that need no escaping in one piece and escapes
     what stands between them.
     */
    method StringNoQuotes(s: string)
      modifies this
      ensures buffer == old(buffer) + Escape(s, !noEscapeHTML)
    {
      var p, i := 0, 0;
      assert s[i..] == s && s[p..i] == "" && buffer + "" == buffer;
      while i < |s|
        invariant 0 <= p <= i <= |s|
        invariant Written(buffer, s, p, i, !noEscapeHTML) == old(buffer) + Escape(s, !noEscapeHTML)
      {
        ghost var b, q, j := buffer, p, i;
        p, i := Turn(s, p, i);
        TurnKeepsWritten(b, buffer, s, q, j, p, i, !noEscapeHTML);
      }
      WrittenAtEnd(buffer, s, p, !noEscapeHTML);
      buffer := buffer + s[p..];
    }

    method String(s: string)
      modifies this
      ensures buffer == old(buffer) + ("\"" + Escape(s, !noEscapeHTML) + "\"")
    {
      Associate(buffer, "\"", Escape(s, !noEscapeHTML));
      Associate(buffer, "\"" + Escape(s, !noEscapeHTML), "\"");
      RawString("\"");
      StringNoQuotes(s);
      RawString("\"");
    }

    method Int64(n: int)
      modifies this
      ensures buffer == old(buffer) + FormatInt(n)
    {
      RawString(FormatInt(n));
    }

    method Bool(b: bool)
      modifies this
      ensures buffer == old(buffer) + if b then "true" else "false"
    {
      RawString(if b then "true" else "false");
    }

    method BuildBytes() returns (data: string)
      modifies this
      ensures data == old(buffer) && buffer == ""
    {
      data := buffer;
      buffer := "";
    }
  }

  /** What the writer will hold when it has copied `s[p..i]` and escaped what follows. */
  ghost function Written(buffer: string, s: string, p: nat, i: nat, html: bool): string
    requires p <= i <= |s|
  {
    buffer + s[p..i] + Escape(s[i..], html)
  }

  lemma TurnKeepsWritten(b: string, b': string, s: string, p: nat, i: nat, p': nat, i': nat, html: bool)
    requires p <= i < |s| && p' <= i' <= |s| && i' == i + Step(s[i..])
    requires b' + s[p'..i'] == b + s[p..i] + EscapeUnit(s[i..], html)
    ensures Written(b', s, p', i', html) == Written(b, s, p, i, html)
  {
    var unit, rest := EscapeUnit(s[i..], html), Escape(s[i'..], html);
    assert s[i..][Step(s[i..])..] == s[i'..];
    assert Escape(s[i..], html) == unit + rest;
    Associate(b + s[p..i], unit, rest);
  }

  lemma WrittenAtEnd(buffer: string, s: string, p: nat, html: bool)
    requires p <= |s|
    ensures Written(buffer, s, p, |s|, html) == buffer + s[p..]
  {
    assert s[|s|..] == "" && s[p..|s|] == s[p..];
  }

  lemma RunGrows(buffer: string, s: string, p: nat, i: nat, w: nat)
    requires p <= i && i + w <= |s|
    ensures buffer + s[p..i + w] == buffer + s[p..i] + s[i..][..w]
  {
  }

  // ------------------------------------------------------------------
  // Reading a string body.

  function HexValue(c: char): (v: Option<nat>)
    ensures v.Some? ==> v.value < 16
  {
    if '0' <= c <= '9' then Some(c as int - '0' as int)
    else if 'a' <= c <= 'f' then Some(c as int - 'a' as int + 10)
    else if 'A' <= c <= 'F' then Some(c as int - 'A' as int + 10)
    else None
  }

  /** The code unit of `\uXXXX` at the front of `s`. */
  function CodeUnit(s: string): (v: Option<nat>)
    ensures v.Some? ==> |s| >= 6 && v.value < 0x10000
  {
    if |s| < 6 || s[0] != '\\' || s[1] != 'u' then None
    else
      match (HexValue(s[2]), HexValue(s[3]), HexValue(s[4]), HexValue(s[5]))
      case (Some(a), Some(b), Some(c), Some(d)) => Some(((a * 16 + b) * 16 + c) * 16 + d)
      case _ => None
  }

  function SimpleEscape(c: char): Option<char>
  {
    match c
    case '"' => Some('"')
    case '\\' => Some('\\')
    case '/' => Some('/')
    case 'b' => Some(0x08 as char)
    case 'f' => Some(0x0C as char)
    case 'n' => Some('\n')
    case 'r' => Some('\r')
    case 't' => Some('\t')
    case _ => None
  }

  /** One element of a string body: its value in UTF-8 and its length in the text; `None` when malformed. */
  function ScanUnit(s: string): (u: Option<(string, nat)>)
    requires s != ""
    ensures u.Some? ==> 1 <= u.value.1 <= |s|
  {
    if s[0] == '\\' then
      match CodeUnit(s)
      case Some(v) =>
        if v < 0xD800 || v > 0xDFFF then Some((Encode(v), 6))
        else if v > 0xDBFF then None
        else
          (match CodeUnit(s[6..])
           case Some(w) =>
             if 0xDC00 <= w <= 0xDFFF then Some((Encode(0x10000 + (v - 0xD800) * 0x400 + (w - 0xDC00)), 12)) else None
           case None => None)
      case None =>
        if |s| < 2 then None else
          match SimpleEscape(s[1])
          case Some(c) => Some(([c], 2))
          case None => None
    else if s[0] as int < 0x20 || RuneWidth(s) == 0 then None
    else Some((s[..RuneWidth(s)], RuneWidth(s)))
  }

  /** The value of a string body up to its closing quote, and what follows the quote. */
  function ScanString(s: string): (r: Option<(string, string)>)
    ensures r.Some? ==> |r.value.1| < |s|
    decreases |s|
  {
    if s == "" then None
    else if s[0] == '"' then Some(("", s[1..]))
    else
      match ScanUnit(s)
      case None => None
      case Some((v, n)) =>
        match ScanString(s[n..])
        case None => None
        case Some((value, rest)) => Some((v + value, rest))
  }

  // ------------------------------------------------------------------
  // The round trip.

  lemma HexRoundTrip(n: nat)
    requires n < 16
    ensures HexValue(HEX_DIGITS[n]) == Some(n)
  {
    assert HEX_DIGITS[0] == '0' && HEX_DIGITS[1] == '1' && HEX_DIGITS[2] == '2' && HEX_DIGITS[3] == '3';
    assert HEX_DIGITS[4] == '4' && HEX_DIGITS[5] == '5' && HEX_DIGITS[6] == '6' && HEX_DIGITS[7] == '7';
    assert HEX_DIGITS[8] == '8' && HEX_DIGITS[9] == '9' && HEX_DIGITS[10] == 'a' && HEX_DIGITS[11] == 'b';
    assert HEX_DIGITS[12] == 'c' && HEX_DIGITS[13] == 'd' && HEX_DIGITS[14] == 'e' && HEX_DIGITS[15] == 'f';
  }

  /** A sequence is recognised by its own bytes, whatever follows. */
  lemma RuneWidthLocal(s: string, t: string)
    requires s != "" && RuneWidth(s) > 0
    ensures RuneWidth(s[..RuneWidth(s)] + t) == RuneWidth(s)
  {
    var w := RuneWidth(s);
    var u := s[..w] + t;
    assert forall i :: 0 <= i < w ==> u[i] == s[i];
  }

  lemma EscapeAsciiScans(c: char, t: string)
    requires c as int < 0x80
    ensures ScanUnit(EscapeAscii(c) + t) == Some(([c], |EscapeAscii(c)|))
  {
    var e := EscapeAscii(c);
    var u := e + t;
    assert forall i :: 0 <= i < |e| ==> u[i] == e[i];
    if |e| == 6 {
      HexRoundTrip(c as int / 16);
      HexRoundTrip(c as int % 16);
      assert HexValue('0') == Some(0);
      assert u[2] == '0' && u[3] == '0' && CodeUnit(u) == Some(c as int);
    } else {
      assert |e| == 2 && u[1] == e[1] && e[1] != 'u';
    }
  }

  lemma SeparatorScans(s: string, t: string)
    requires s != "" && s[0] as int >= 0x80 && RuneWidth(s) > 0 && (Rune(s) == 0x2028 || Rune(s) == 0x2029)
    ensures ScanUnit("\\u202" + [HEX_DIGITS[Rune(s) % 16]] + t) == Some((s[..RuneWidth(s)], 6))
  {
    var e := "\\u202" + [HEX_DIGITS[Rune(s) % 16]];
    var u := e + t;
    assert forall i :: 0 <= i < 6 ==> u[i] == e[i];
    HexRoundTrip(Rune(s) % 16);
    assert CodeUnit(u) == Some(Rune(s));
    assert RuneWidth(s) == 3;
    assert Byte(s, 0) == 0xE2 && Byte(s, 1) == 0x80;
    assert Encode(Rune(s)) == s[..3];
  }

  lemma BrokenScans(t: string)
    ensures ScanUnit("\\ufffd" + t) == Some((REPLACEMENT, 6))
  {
    var u := "\\ufffd" + t;
    assert u[0] == '\\' && u[1] == 'u' && u[2] == 'f' && u[3] == 'f' && u[4] == 'f' && u[5] == 'd';
    assert CodeUnit(u) == Some(0xFFFD);
  }

  /** Each escaped unit reads back as one sanitized unit. */
  lemma UnitScans(s: string, html: bool, t: string)
    requires s != ""
    ensures ScanUnit(EscapeUnit(s, html) + t) == Some((SanitizeUnit(s), |EscapeUnit(s, html)|))
    ensures EscapeUnit(s, html) != "" && EscapeUnit(s, html)[0] != '"'
  {
    if s[0] as int < 0x80 {
      assert s[..1] == [s[0]];
      if IsPlain(s[0], html) {
        RuneWidthLocal(s, t);
        assert (s[..1] + t)[0] == s[0] && (s[..1] + t)[..1] == s[..1];
      } else {
        EscapeAsciiScans(s[0], t);
      }
    } else if RuneWidth(s) == 0 {
      BrokenScans(t);
    } else if Rune(s) == 0x2028 || Rune(s) == 0x2029 {
      SeparatorScans(s, t);
    } else {
      RuneWidthLocal(s, t);
      var w := RuneWidth(s);
      assert (s[..w] + t)[0] == s[0] && (s[..w] + t)[..w] == s[..w];
    }
  }

  lemma ScanStep(unit: string, tail: string, v: string)
    requires unit != "" && unit[0] != '"'
    requires ScanUnit(unit + tail) == Some((v, |unit|)) && ScanString(tail).Some?
    ensures ScanString(unit + tail) == Some((v + ScanString(tail).value.0, ScanString(tail).value.1))
  {
    assert (unit + tail)[0] == unit[0] && (unit + tail)[|unit|..] == tail;
  }

  /**
   Reading what the escaper wrote gives the input with undecodable bytes replaced,
   and stops at the closing quote: no raw quote, control byte or dangling backslash
   is left in between.
   */
  lemma {:induction false} EscapeRoundTrip(s: string, html: bool, close: string)
    requires close != "" && close[0] == '"'
    ensures ScanString(Escape(s, html) + close) == Some((Sanitize(s), close[1..]))
  {
    if s == "" {
      assert Escape(s, html) + close == close;
    } else {
      var next := s[Step(s)..];
      var unit, tail := EscapeUnit(s, html), Escape(next, html) + close;
      assert Escape(s, html) + close == unit + tail;
      EscapeRoundTrip(next, html, close);
      UnitScans(s, html, tail);
      ScanStep(unit, tail, SanitizeUnit(s));
    }
  }

  /** Sanitizing changes nothing exactly when the bytes are UTF-8 already. */
  lemma {:induction false} SanitizeKeepsUtf8(s: string)
    requires IsUtf8(s)
    ensures Sanitize(s) == s
  {
    if s != "" {
      SanitizeKeepsUtf8(s[RuneWidth(s)..]);
      assert s[..RuneWidth(s)] + s[RuneWidth(s)..] == s;
    }
  }

  lemma {:induction false} SanitizeIsUtf8(s: string)
    ensures IsUtf8(Sanitize(s))
  {
    if s != "" {
      var unit, more := SanitizeUnit(s), Sanitize(s[Step(s)..]);
      SanitizeIsUtf8(s[Step(s)..]);
      if RuneWidth(s) == 0 {
        assert RuneWidth(REPLACEMENT) == 3 && REPLACEMENT[..3] == REPLACEMENT;
        RuneWidthLocal(REPLACEMENT, more);
      } else {
        RuneWidthLocal(s, more);
      }
      assert (unit + more)[|unit|..] == more;
    }
  }

  // ------------------------------------------------------------------
  // Which bytes are well formed.

  /** A Unicode scalar value. */
  predicate IsScalar(r: int)
  {
    0 <= r < 0xD800 || 0xE000 <= r < 0x110000
  }

  predicate Scalars(rs: seq<int>)
  {
    forall i :: 0 <= i < |rs| ==> IsScalar(rs[i])
  }

  function EncodeAll(rs: seq<int>): string
    requires Scalars(rs)
  {
    if rs == [] then "" else Encode(rs[0]) + EncodeAll(rs[1..])
  }

  lemma FirstBytes(a: string, rest: string)
    ensures forall i :: 0 <= i < |a| ==> (a + rest)[i] == a[i]
    ensures (a + rest)[..|a|] == a && (a + rest)[|a|..] == rest
  {
  }

  lemma ThreeGroups(r: int)
    requires IsScalar(r) && 0x800 <= r < 0x10000
    ensures var a, b, c := r / 0x1000, r / 0x40 % 0x40, r % 0x40;
            r == a * 0x1000 + b * 0x40 + c && a < 0x10 && (a == 0 ==> b >= 0x20) && (a == 0xD ==> b <= 0x1F)
  {
    assert r / 0x1000 == r / 0x40 / 0x40;
  }

  lemma FourGroups(r: int)
    requires 0x10000 <= r < 0x110000
    ensures var a, b, c, d := r / 0x40000, r / 0x1000 % 0x40, r / 0x40 % 0x40, r % 0x40;
            r == a * 0x40000 + b * 0x1000 + c * 0x40 + d && a <= 4 && (a == 0 ==> b >= 0x10) && (a == 4 ==> b <= 0xF)
  {
    assert r / 0x1000 == r / 0x40 / 0x40 && r / 0x40000 == r / 0x40 / 0x40 / 0x40;
  }

  lemma ThreeBytes(r: int, s: string)
    requires IsScalar(r) && 0x800 <= r < 0x10000 && |s| >= 3
    requires Byte(s, 0) == 0xE0 + r / 0x1000 && Byte(s, 1) == 0x80 + r / 0x40 % 0x40 && Byte(s, 2) == 0x80 + r % 0x40
    ensures RuneWidth(s) == 3 && Rune(s) == r
  {
    ThreeGroups(r);
  }

  lemma FourBytes(r: int, s: string)
    requires 0x10000 <= r < 0x110000 && |s| >= 4
    requires Byte(s, 0) == 0xF0 + r / 0x40000 && Byte(s, 1) == 0x80 + r / 0x1000 % 0x40
    requires Byte(s, 2) == 0x80 + r / 0x40 % 0x40 && Byte(s, 3) == 0x80 + r % 0x40
    ensures RuneWidth(s) == 4 && Rune(s) == r
  {
    FourGroups(r);
  }

  /** Each scalar value is recognised by its sequence. */
  lemma EncodedIsRune(r: int, rest: string)
    requires IsScalar(r)
    ensures var s := Encode(r) + rest; RuneWidth(s) == |Encode(r)| && Rune(s) == r
  {
    FirstBytes(Encode(r), rest);
    if 0x800 <= r < 0x10000 {
      ThreeBytes(r, Encode(r) + rest);
    } else if r >= 0x10000 {
      FourBytes(r, Encode(r) + rest);
    }
  }

  lemma ThreeDigits(a: int, b: int, c: int)
    requires 0 <= a && 0 <= b < 0x40 && 0 <= c < 0x40
    ensures var r := a * 0x1000 + b * 0x40 + c; r / 0x1000 == a && r / 0x40 % 0x40 == b && r % 0x40 == c
  {
    assert (a * 0x1000 + b * 0x40 + c) / 0x40 == a * 0x40 + b;
  }

  lemma FourDigits(a: int, b: int, c: int, d: int)
    requires 0 <= a && 0 <= b < 0x40 && 0 <= c < 0x40 && 0 <= d < 0x40
    ensures var r := a * 0x40000 + b * 0x1000 + c * 0x40 + d;
            r / 0x40000 == a && r / 0x1000 % 0x40 == b && r / 0x40 % 0x40 == c && r % 0x40 == d
  {
    var r := a * 0x40000 + b * 0x1000 + c * 0x40 + d;
    assert r / 0x40 == a * 0x1000 + b * 0x40 + c;
    assert r / 0x1000 == a * 0x40 + b;
  }

  lemma ShortRune(s: string)
    requires s != "" && 0 < RuneWidth(s) < 3
    ensures IsScalar(Rune(s)) && Encode(Rune(s)) == s[..RuneWidth(s)]
  {
  }

  lemma ThreeByteRune(s: string)
    requires s != "" && RuneWidth(s) == 3
    ensures IsScalar(Rune(s)) && 0x800 <= Rune(s) < 0x10000 && Encode(Rune(s)) == s[..3]
  {
    ThreeDigits(Byte(s, 0) - 0xE0, Byte(s, 1) - 0x80, Byte(s, 2) - 0x80);
    SamePrefix(Encode(Rune(s)), s);
  }

  lemma FourByteRune(s: string)
    requires s != "" && RuneWidth(s) == 4
    ensures 0x10000 <= Rune(s) < 0x110000 && Encode(Rune(s)) == s[..4]
  {
    FourDigits(Byte(s, 0) - 0xF0, Byte(s, 1) - 0x80, Byte(s, 2) - 0x80, Byte(s, 3) - 0x80);
    SamePrefix(Encode(Rune(s)), s);
  }

  lemma SamePrefix(a: string, s: string)
    requires |a| <= |s| && forall i :: 0 <= i < |a| ==> a[i] == s[i]
    ensures a == s[..|a|]
  {
  }

  /** Nothing else is: a sequence that is recognised is that of its scalar value. */
  lemma RuneIsEncoded(s: string)
    requires s != "" && RuneWidth(s) > 0
    ensures IsScalar(Rune(s)) && Encode(Rune(s)) == s[..RuneWidth(s)]
  {
    if RuneWidth(s) < 3 {
      ShortRune(s);
    } else if RuneWidth(s) == 3 {
      ThreeByteRune(s);
    } else {
      FourByteRune(s);
    }
  }

  lemma {:induction false} EncodedIsUtf8(rs: seq<int>)
    requires Scalars(rs)
    ensures IsUtf8(EncodeAll(rs))
  {
    if rs != [] {
      var rest := EncodeAll(rs[1..]);
      EncodedIsUtf8(rs[1..]);
      EncodedIsRune(rs[0], rest);
      FirstBytes(Encode(rs[0]), rest);
    }
  }

  lemma {:induction false} Utf8IsEncoded(s: string) returns (rs: seq<int>)
    requires IsUtf8(s)
    ensures Scalars(rs) && s == EncodeAll(rs)
  {
    if s == "" {
      rs := [];
    } else {
      var w := RuneWidth(s);
      RuneIsEncoded(s);
      var more := Utf8IsEncoded(s[w..]);
      rs := [Rune(s)] + more;
      assert rs[1..] == more && s == s[..w] + s[w..];
    }
  }

  /** A byte string is UTF-8 exactly when it is the sequences of some scalar values; such a string is written unharmed. */
  lemma Utf8Means(s: string)
    ensures IsUtf8(s) <==> exists rs :: Scalars(rs) && s == EncodeAll(rs)
    ensures IsUtf8(s) <==> Sanitize(s) == s
  {
    if IsUtf8(s) {
      var rs := Utf8IsEncoded(s);
      SanitizeKeepsUtf8(s);
    }
    if rs :| Scalars(rs) && s == EncodeAll(rs) {
      EncodedIsUtf8(rs);
    }
    SanitizeIsUtf8(s);
  }

  // ------------------------------------------------------------------
  // Which bytes are escaped.

  /** Control bytes are never written, nor with `html` the three characters that mean something to a browser. */
  predicate IsHarmless(c: char, html: bool)
  {
    0x20 <= c as int && (html ==> c != '&' && c != '<' && c != '>')
  }

  /** At `i` stands U+2028 or U+2029. */
  predicate IsLineSeparator(s: string, i: nat)
  {
    i + 2 < |s| && s[i] as int == 0xE2 && s[i + 1] as int == 0x80 && (s[i + 2] as int == 0xA8 || s[i + 2] as int == 0xA9)
  }

  predicate AllHarmless(s: string, html: bool)
  {
    forall i :: 0 <= i < |s| ==> IsHarmless(s[i], html)
  }

  lemma HexIsHarmless(n: nat, html: bool)
    requires n < 16
    ensures IsHarmless(HEX_DIGITS[n], html) && HEX_DIGITS[n] as int < 0x80
  {
    HexRoundTrip(n);
  }

  lemma AsciiIsHarmless(c: char, html: bool)
    requires c as int < 0x80 && !IsPlain(c, html)
    ensures AllHarmless(EscapeAscii(c), html) && forall i :: 0 <= i < |EscapeAscii(c)| ==> EscapeAscii(c)[i] as int < 0x80
  {
    HexIsHarmless(c as int / 16, html);
    HexIsHarmless(c as int % 16, html);
  }

  lemma RunIsHarmless(s: string, html: bool)
    requires s != "" && s[0] as int >= 0x80 && RuneWidth(s) > 0
    ensures AllHarmless(s[..RuneWidth(s)], html)
    ensures forall i :: 0 <= i < RuneWidth(s) && s[i] as int == 0xE2 ==> i == 0 && RuneWidth(s) == 3
  {
  }

  lemma UnitIsHarmless(s: string, html: bool)
    requires s != ""
    ensures AllHarmless(EscapeUnit(s, html), html)
    ensures forall i :: 0 <= i < |EscapeUnit(s, html)| && EscapeUnit(s, html)[i] as int == 0xE2 ==>
              i == 0 && RuneWidth(s) == 3 && EscapeUnit(s, html) == s[..3]
  {
    if s[0] as int < 0x80 {
      if !IsPlain(s[0], html) {
        AsciiIsHarmless(s[0], html);
      }
    } else if RuneWidth(s) > 0 {
      if Rune(s) == 0x2028 || Rune(s) == 0x2029 {
        HexIsHarmless(Rune(s) % 16, html);
      } else {
        RunIsHarmless(s, html);
      }
    }
  }

  lemma SeparatorIsRune(s: string)
    requires s != "" && IsLineSeparator(s, 0)
    ensures RuneWidth(s) == 3 && (Rune(s) == 0x2028 || Rune(s) == 0x2029)
  {
  }

  /** A unit that is copied does not begin with a line separator. */
  lemma UnitIsNoSeparator(s: string, html: bool, more: string)
    requires s != "" && RuneWidth(s) == 3 && EscapeUnit(s, html) == s[..3]
    ensures !IsLineSeparator(s[..3] + more, 0)
  {
    var t := s[..3] + more;
    assert t[0] == s[0] && t[1] == s[1] && t[2] == s[2];
    if IsLineSeparator(t, 0) {
      SeparatorIsRune(s);
    }
  }

  /** Neither line separators nor anything harmful is in the text. */
  lemma {:induction false} EscapedIsHarmless(s: string, html: bool, i: nat)
    requires i < |Escape(s, html)|
    ensures IsHarmless(Escape(s, html)[i], html) && !IsLineSeparator(Escape(s, html), i)
  {
    var unit, more := EscapeUnit(s, html), Escape(s[Step(s)..], html);
    UnitIsHarmless(s, html);
    if i >= |unit| {
      EscapedIsHarmless(s[Step(s)..], html, i - |unit|);
      assert Escape(s, html)[i..] == more[i - |unit|..];
    } else if unit[i] as int == 0xE2 {
      UnitIsNoSeparator(s, html, more);
    }
  }

  /** No line separator, quote, backslash or harmful byte. */
  ghost predicate NeedsNoEscape(s: string, html: bool)
  {
    AllHarmless(s, html) && (forall i :: 0 <= i < |s| ==> s[i] != '"' && s[i] != '\\')
    && forall i: nat :: !IsLineSeparator(s, i)
  }

  lemma RestNeedsNone(s: string, html: bool, w: nat)
    requires NeedsNoEscape(s, html) && w <= |s|
    ensures NeedsNoEscape(s[w..], html)
  {
    forall i: nat ensures !IsLineSeparator(s[w..], i) {
      assert !IsLineSeparator(s, w + i);
    }
  }

  lemma SeparatorByRune(s: string)
    requires s != "" && RuneWidth(s) > 0
    ensures Rune(s) == 0x2028 || Rune(s) == 0x2029 ==> IsLineSeparator(s, 0)
  {
    RuneIsEncoded(s);
    var t := Encode(Rune(s));
    assert forall i :: 0 <= i < |t| ==> t[i] == s[i];
  }

  lemma KeptUnit(s: string, html: bool)
    requires s != "" && RuneWidth(s) > 0 && NeedsNoEscape(s, html)
    ensures EscapeUnit(s, html) == s[..RuneWidth(s)]
  {
    assert !IsLineSeparator(s, 0);
    if s[0] as int < 0x80 {
      assert IsHarmless(s[0], html);
    } else {
      SeparatorByRune(s);
    }
  }

  /** Everything else is written as it is. */
  lemma {:induction false} PlainIsKept(s: string, html: bool)
    requires IsUtf8(s) && NeedsNoEscape(s, html)
    ensures Escape(s, html) == s
  {
    if s != "" {
      var w := RuneWidth(s);
      KeptUnit(s, html);
      RestNeedsNone(s, html, w);
      PlainIsKept(s[w..], html);
      assert s == s[..w] + s[w..];
    }
  }
}
