/** The few operations on strings that the engine takes from Go's `strings` package. */
module Text {
  datatype Option<+T> = None | Some(value: T)

  /** What separates the elements of a list in one string. */
  const LISTSEP := ','

  /** `strings.Split` with a one-character separator: never empty, `""` gives `[""]`. */
  function Split(s: string, sep: char): (parts: seq<string>)
    ensures |parts| >= 1
  {
    if s == "" then [""]
    else
      var rest := Split(s[1..], sep);
      if s[0] == sep then [""] + rest else [[s[0]] + rest[0]] + rest[1..]
  }

  /** `strings.Join` with a one-character separator. */
  function Join(parts: seq<string>, sep: char): string
  {
    if |parts| == 0 then ""
    else if |parts| == 1 then parts[0]
    else parts[0] + [sep] + Join(parts[1..], sep)
  }

  function Flatten<T>(parts: seq<seq<T>>): seq<T>
  {
    if |parts| == 0 then [] else parts[0] + Flatten(parts[1..])
  }

  /** Membership in a concatenation is membership in one of its parts. */
  lemma {:induction false} FlattenMember<T>(parts: seq<seq<T>>, x: T)
    ensures x in Flatten(parts) <==> exists i :: 0 <= i < |parts| && x in parts[i]
  {
    if |parts| > 0 {
      FlattenMember(parts[1..], x);
      if x in Flatten(parts[1..]) {
        var i :| 0 <= i < |parts[1..]| && x in parts[1..][i];
        assert x in parts[i + 1];
      }
      if i :| 0 <= i < |parts| && x in parts[i] {
        if i > 0 {
          assert x in parts[1..][i - 1];
        }
      }
    }
  }

  lemma {:induction false} FlattenConcat<T>(a: seq<seq<T>>, b: seq<seq<T>>)
    ensures Flatten(a + b) == Flatten(a) + Flatten(b)
  {
    if |a| == 0 {
      assert a + b == b;
    } else {
      assert (a + b)[1..] == a[1..] + b;
      FlattenConcat(a[1..], b);
    }
  }

  /** A separator between two texts separates their parts, whatever the texts contain. */
  lemma {:induction false} SplitAround(a: string, b: string, sep: char)
    ensures Split(a + [sep] + b, sep) == Split(a, sep) + Split(b, sep)
  {
    if a == "" {
      assert a + [sep] + b == [sep] + b;
      assert ([sep] + b)[1..] == b;
    } else {
      assert (a + [sep] + b)[1..] == a[1..] + [sep] + b;
      SplitAround(a[1..], b, sep);
    }
  }

  lemma {:induction false} SplitWhole(s: string, sep: char)
    requires sep !in s
    ensures Split(s, sep) == [s]
  {
    if s != "" {
      SplitWhole(s[1..], sep);
      assert [s[0]] + s[1..] == s;
    }
  }

  /** Splitting a joined list splits every element, even when elements hold separators themselves. */
  lemma {:induction false} SplitJoin(parts: seq<string>, sep: char)
    requires |parts| >= 1
    ensures Split(Join(parts, sep), sep) == Flatten(seq(|parts|, i requires 0 <= i < |parts| => Split(parts[i], sep)))
  {
    var split := seq(|parts|, i requires 0 <= i < |parts| => Split(parts[i], sep));
    if |parts| == 1 {
      assert split[1..] == [];
    } else {
      SplitAround(parts[0], Join(parts[1..], sep), sep);
      SplitJoin(parts[1..], sep);
      assert split[1..] == seq(|parts[1..]|, i requires 0 <= i < |parts[1..]| => Split(parts[1..][i], sep));
    }
  }

  /** Splitting inverts joining when no element holds the separator. */
  lemma {:induction false} SplitJoinFree(parts: seq<string>, sep: char)
    requires |parts| >= 1
    requires forall i :: 0 <= i < |parts| ==> sep !in parts[i]
    ensures Split(Join(parts, sep), sep) == parts
  {
    SplitWhole(parts[0], sep);
    if |parts| > 1 {
      SplitAround(parts[0], Join(parts[1..], sep), sep);
      SplitJoinFree(parts[1..], sep);
    }
  }

  predicate HasPrefix(s: string, prefix: string)
  {
    |prefix| <= |s| && s[..|prefix|] == prefix
  }

  predicate HasSuffix(s: string, suffix: string)
  {
    |suffix| <= |s| && s[|s| - |suffix|..] == suffix
  }

  predicate Contains(s: string, part: string)
  {
    exists i :: 0 <= i <= |s| && HasPrefix(s[i..], part)
  }

  predicate IsQuote(c: char)
  {
    c == '"' || c == '\''
  }

  /** Drops one leading and one trailing quote of either kind, independently of each other. */
  function TrimBoundingQuotes(s: string): string
  {
    var s := if |s| > 0 && IsQuote(s[0]) then s[1..] else s;
    if |s| > 0 && IsQuote(s[|s| - 1]) then s[..|s| - 1] else s
  }

  /** The index of the first `c` in `s`, or `|s|`. */
  function IndexOf(s: string, c: char): (k: nat)
    ensures k <= |s|
    ensures c !in s[..k]
    ensures k < |s| ==> s[k] == c
  {
    if s == "" || s[0] == c then 0 else
      var k := IndexOf(s[1..], c);
      assert s[..k + 1] == [s[0]] + s[1..][..k];
      k + 1
  }

  predicate IsDigits(s: string)
  {
    forall i :: 0 <= i < |s| ==> '0' <= s[i] <= '9'
  }

  function FormatNat(n: nat): (digits: string)
    ensures |digits| > 0 && IsDigits(digits)
    ensures n > 0 ==> digits[0] != '0'
    ensures n == 0 ==> digits == "0"
  {
    var last := ('0' as int + n % 10) as char;
    if n < 10 then [last] else FormatNat(n / 10) + [last]
  }

  /** `strconv.FormatInt(n, 10)`. */
  function FormatInt(n: int): string
  {
    if n < 0 then "-" + FormatNat(-n) else FormatNat(n)
  }

  function ParseNat(digits: string): nat
    requires IsDigits(digits)
  {
    if digits == "" then 0 else 10 * ParseNat(digits[..|digits| - 1]) + (digits[|digits| - 1] as int - '0' as int)
  }

  /** `strconv.ParseInt(s, 10, 64)`; `None` for its two errors, syntax and range. */
  function ParseInt64(s: string): (n: Option<int>)
    ensures n.Some? ==> -0x8000_0000_0000_0000 <= n.value < 0x8000_0000_0000_0000
  {
    var digits := if |s| > 0 && (s[0] == '-' || s[0] == '+') then s[1..] else s;
    if |digits| == 0 || !IsDigits(digits) then None else
      var magnitude: int := ParseNat(digits);
      if s[0] == '-' then
        if magnitude <= 0x8000_0000_0000_0000 then Some(-magnitude) else None
      else if magnitude < 0x8000_0000_0000_0000 then Some(magnitude) else None
  }

  lemma {:induction false} ParseFormatNat(n: nat)
    ensures ParseNat(FormatNat(n)) == n
  {
    if n >= 10 {
      ParseFormatNat(n / 10);
      var digits := FormatNat(n);
      assert digits[..|digits| - 1] == FormatNat(n / 10);
    }
  }

  /** Writing a 64-bit integer in decimal and reading it back gives the integer. */
  lemma ParseFormatInt(n: int)
    requires -0x8000_0000_0000_0000 <= n < 0x8000_0000_0000_0000
    ensures ParseInt64(FormatInt(n)) == Some(n)
  {
    var text := FormatInt(n);
    var digits := FormatNat(if n < 0 then -n else n);
    ParseFormatNat(if n < 0 then -n else n);
    if n < 0 {
      assert text[1..] == digits;
    } else {
      assert '0' <= text[0] <= '9';
    }
  }

  // ------------------------------------------------------------------
  // Concatenation.

  lemma Associate(a: string, b: string, c: string)
    ensures (a + b) + c == a + (b + c)
  {
  }

  lemma Regroup(a: string, b: string, c: string, d: string)
    ensures a + b + c + d == a + (b + (c + d))
  {
  }

  lemma RegroupInner(a: string, b: string, c: string, d: string)
    ensures (a + (b + c)) + d == a + (b + (c + d))
  {
  }
}
