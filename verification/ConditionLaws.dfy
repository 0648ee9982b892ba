/**
 What compiled conditions say about the values of a record: comparisons, membership and
 connectives, each stated on the closure in terms of the mapped values alone.
 */
module ConditionLaws {
  import opened Text
  import opened SfplSyntax
  import opened Predicates
  import opened PolicyMeaning
  import opened PolicyCompiler
  import L = ListExpansion

  // ------------------------------------------------------------------
  // Quotes.

  predicate QuoteFree(s: string)
  {
    s == "" || (!IsQuote(s[0]) && !IsQuote(s[|s| - 1]))
  }

  /** `text` is `s`, bare or in quotes. */
  predicate Spells(text: string, s: string)
  {
    text == s || text == "\"" + s + "\"" || text == "'" + s + "'"
  }

  lemma TrimSpelled(text: string, s: string)
    requires QuoteFree(s) && Spells(text, s)
    ensures TrimBoundingQuotes(text) == s
  {
    if text != s {
      assert text[1..|text| - 1] == s;
      assert text[1..][..|s|] == s && text[1..][|s|] == text[|text| - 1];
    }
  }

  /** At most one quote is dropped at either end, of either kind, and nothing else. */
  lemma TrimMeans(s: string)
    ensures var t := TrimBoundingQuotes(s);
            exists a, b :: s == a + t + b && |a| <= 1 && |b| <= 1
                           && (a != "" <==> s != "" && (s[0] == '"' || s[0] == '\''))
                           && (b != "" <==> |s| > |a| && (s[|s| - 1] == '"' || s[|s| - 1] == '\''))
  {
    var t := TrimBoundingQuotes(s);
    var i := if s != "" && IsQuote(s[0]) then 1 else 0;
    var a, b := s[..i], s[i + |t|..];
    assert t == s[i..i + |t|];
    assert s == a + t + b;
  }

  // ------------------------------------------------------------------
  // Operands.

  /** A literal: a text that is no attribute, whose content has neither commas nor brackets. */
  predicate IsLiteral(fm: FieldMapper, text: string, lit: string)
  {
    text !in fm.mappers && Spells(text, lit) && QuoteFree(lit) && LISTSEP !in lit && '[' !in lit
  }

  /** An attribute mapped to the text of a list with these elements. */
  ghost predicate IsMappedTo(fm: FieldMapper, attr: string, rec: FlatRecord, parts: seq<string>)
  {
    attr in fm.mappers && '[' !in attr && fm.mappers[attr](rec).Str?
    && IsListText(fm.mappers[attr](rec).s, parts)
  }

  ghost predicate IsListText(text: string, parts: seq<string>)
  {
    parts != [] && (forall i :: 0 <= i < |parts| ==> LISTSEP !in parts[i])
    && QuoteFree(Join(parts, LISTSEP)) && Spells(text, Join(parts, LISTSEP))
  }

  lemma LiteralReads(fm: FieldMapper, text: string, lit: string, rec: FlatRecord)
    requires IsLiteral(fm, text, lit)
    ensures fm.MapStr(text, rec) == lit && Split(lit, LISTSEP) == [lit]
  {
    TrimSpelled(text, lit);
    SplitWhole(lit, LISTSEP);
    assert '[' !in text;
    assert IndexOf(text, '[') == |text|;
  }

  lemma AttributeReads(fm: FieldMapper, attr: string, rec: FlatRecord, parts: seq<string>)
    requires IsMappedTo(fm, attr, rec, parts)
    ensures Split(fm.MapStr(attr, rec), LISTSEP) == parts
  {
    var text := fm.mappers[attr](rec).s;
    assert IndexOf(attr, '[') == |attr|;
    TrimSpelled(text, Join(parts, LISTSEP));
    SplitJoinFree(parts, LISTSEP);
  }

  // ------------------------------------------------------------------
  // Comparisons of texts.

  lemma ContainsMeans(s: string, part: string)
    ensures Contains(s, part) <==> exists a, b :: s == a + part + b
  {
    if Contains(s, part) {
      var i :| 0 <= i <= |s| && HasPrefix(s[i..], part);
      assert s == s[..i] + part + s[i + |part|..];
    }
    if a, b :| s == a + part + b {
      assert s[|a|..] == part + b && HasPrefix(s[|a|..], part);
    }
  }

  lemma PrefixMeans(s: string, part: string)
    ensures HasPrefix(s, part) <==> exists b :: s == part + b
  {
    if HasPrefix(s, part) {
      assert s == part + s[|part|..];
    }
  }

  lemma SuffixMeans(s: string, part: string)
    ensures HasSuffix(s, part) <==> exists a :: s == a + part
  {
    if HasSuffix(s, part) {
      assert s == s[..|s| - |part|] + part;
    }
    if a :| s == a + part {
      assert s[|s| - |part|..] == part;
    }
  }

  /** What a comparison says of one element of the left operand. */
  ghost predicate SaysOf(fm: FieldMapper, op: Token, s: string, lit: string)
  {
    match op
    case EQ => s == lit
    case CONTAINS => exists a, b :: s == a + lit + b
    case ICONTAINS => exists a, b :: fm.lower(s) == a + fm.lower(lit) + b
    case STARTSWITH => exists b :: s == lit + b
    case ENDSWITH => exists a :: s == a + lit
    case _ => false
  }

  ghost predicate SaysOfSome(fm: FieldMapper, op: Token, parts: seq<string>, lit: string)
  {
    exists i :: 0 <= i < |parts| && SaysOf(fm, op, parts[i], lit)
  }

  predicate IsTextual(op: Token)
  {
    op.EQ? || op.CONTAINS? || op.ICONTAINS? || op.STARTSWITH? || op.ENDSWITH?
  }

  function OperatorOf(op: Token): Operator
    requires IsTextual(op)
  {
    match op
    case EQ => EqOp
    case CONTAINS => ContainsOp
    case ICONTAINS => IContainsOp
    case STARTSWITH => StartsWithOp
    case _ => EndsWithOp
  }

  lemma ApplySays(fm: FieldMapper, op: Token, s: string, lit: string)
    requires IsTextual(op)
    ensures Apply(fm, OperatorOf(op), s, lit) <==> SaysOf(fm, op, s, lit)
  {
    ContainsMeans(s, lit);
    ContainsMeans(fm.lower(s), fm.lower(lit));
    PrefixMeans(s, lit);
    SuffixMeans(s, lit);
  }

  lemma MatchesSays(fm: FieldMapper, op: Token, l: string, parts: seq<string>, lit: string)
    requires IsTextual(op) && Split(l, LISTSEP) == parts && Split(lit, LISTSEP) == [lit]
    ensures Matches(fm, OperatorOf(op), l, lit) <==> SaysOfSome(fm, op, parts, lit)
  {
    forall i | 0 <= i < |parts| ensures Apply(fm, OperatorOf(op), parts[i], lit) <==> SaysOf(fm, op, parts[i], lit) {
      ApplySays(fm, op, parts[i], lit);
    }
    if SaysOfSome(fm, op, parts, lit) {
      var i :| 0 <= i < |parts| && SaysOf(fm, op, parts[i], lit);
      assert Apply(fm, OperatorOf(op), Split(l, LISTSEP)[i], Split(lit, LISTSEP)[0]);
    }
  }

  /** A comparison of an attribute with a literal, compiled: some element of the attribute's text is as the operator says. */
  method CompareText(pi: PolicyInterpreter, l: Token, op: Token, r: Token, lit: string) returns (c: Criterion)
    requires l.Word? && r.Word?
    requires IsTextual(op) && IsLiteral(pi.mapper, r.text, lit)
    ensures forall rec, parts :: IsMappedTo(pi.mapper, l.text, rec, parts) ==>
              (c.pred(rec) <==> SaysOfSome(pi.mapper, op, parts, lit))
  {
    c := pi.VisitTerm(Binary(l, op, r), 0);
    forall rec, parts | IsMappedTo(pi.mapper, l.text, rec, parts)
      ensures c.pred(rec) <==> SaysOfSome(pi.mapper, op, parts, lit)
    {
      LiteralReads(pi.mapper, r.text, lit, rec);
      AttributeReads(pi.mapper, l.text, rec, parts);
      MatchesSays(pi.mapper, op, pi.mapper.MapStr(l.text, rec), parts, lit);
    }
  }

  lemma {:induction false} FirstOf(a: string, c: char, b: string)
    requires c !in a
    ensures IndexOf(a + [c] + b, c) == |a|
  {
    if a != "" {
      assert (a + [c] + b)[1..] == a[1..] + [c] + b;
      FirstOf(a[1..], c, b);
    }
  }

  lemma PathReads(fm: FieldMapper, base: string, path: string, rec: FlatRecord)
    requires base in fm.mappers && '[' !in base && path != "" && fm.mappers[base](rec).Str? && fm.mappers[base](rec).s != ""
    ensures fm.MapStr(base + "[" + path + "]", rec) == fm.jsonGet(fm.mappers[base](rec).s, path)
  {
    var attr := base + "[" + path + "]";
    FirstOf(base, '[', path + "]");
    assert attr == base + ['['] + (path + "]");
    assert attr[..|base|] == base;
    assert attr[|base| + 1..|attr| - 1] == path;
  }

  /** A path into an attribute is compared by what it leads to. */
  method ComparePath(pi: PolicyInterpreter, base: string, path: string, l: Token, op: Token, r: Token, lit: string) returns (c: Criterion)
    requires l.Word? && r.Word?
    requires l.text == base + "[" + path + "]" && base in pi.mapper.mappers && '[' !in base && path != ""
    requires IsTextual(op) && IsLiteral(pi.mapper, r.text, lit)
    ensures forall rec, parts :: IsPathTo(pi.mapper, base, path, rec, parts) ==>
              (c.pred(rec) <==> SaysOfSome(pi.mapper, op, parts, lit))
  {
    c := pi.VisitTerm(Binary(l, op, r), 0);
    forall rec, parts | IsPathTo(pi.mapper, base, path, rec, parts)
      ensures c.pred(rec) <==> SaysOfSome(pi.mapper, op, parts, lit)
    {
      LiteralReads(pi.mapper, r.text, lit, rec);
      PathReads(pi.mapper, base, path, rec);
      SplitJoinFree(parts, LISTSEP);
      MatchesSays(pi.mapper, op, pi.mapper.MapStr(l.text, rec), parts, lit);
    }
  }

  ghost predicate IsPathTo(fm: FieldMapper, base: string, path: string, rec: FlatRecord, parts: seq<string>)
    requires base in fm.mappers
  {
    fm.mappers[base](rec).Str? && fm.mappers[base](rec).s != ""
    && parts != [] && (forall i :: 0 <= i < |parts| ==> LISTSEP !in parts[i])
    && fm.jsonGet(fm.mappers[base](rec).s, path) == Join(parts, LISTSEP)
  }

  /** `!=` holds when no element equals the literal. */
  method CompareUnequal(pi: PolicyInterpreter, l: Token, r: Token, lit: string) returns (c: Criterion)
    requires l.Word? && r.Word?
    requires IsLiteral(pi.mapper, r.text, lit)
    ensures forall rec, parts :: IsMappedTo(pi.mapper, l.text, rec, parts) ==> (c.pred(rec) <==> lit !in parts)
  {
    c := pi.VisitTerm(Binary(l, NEQ, r), 0);
    forall rec, parts | IsMappedTo(pi.mapper, l.text, rec, parts) ensures c.pred(rec) <==> lit !in parts {
      LiteralReads(pi.mapper, r.text, lit, rec);
      AttributeReads(pi.mapper, l.text, rec, parts);
      MatchesSays(pi.mapper, EQ, pi.mapper.MapStr(l.text, rec), parts, lit);
    }
  }

  // ------------------------------------------------------------------
  // Comparisons of numbers.

  predicate IsInt64(n: int)
  {
    -0x8000_0000_0000_0000 <= n < 0x8000_0000_0000_0000
  }

  predicate IsOrder(op: Token)
  {
    op.LT? || op.LE? || op.GT? || op.GE?
  }

  /** The order of an attribute mapped to a number and a decimal literal. */
  method CompareNumber(pi: PolicyInterpreter, l: Token, op: Token, r: Token, k: int) returns (c: Criterion)
    requires l.Word? && r.Word?
    requires IsOrder(op) && l.text in pi.mapper.mappers
    requires IsInt64(k) && r.text == FormatInt(k) && r.text !in pi.mapper.mappers
    ensures forall rec, n :: pi.mapper.mappers[l.text](rec) == Int64(n) ==>
              (c.pred(rec) <==> match op
                                case LT => n < k
                                case LE => n <= k
                                case GT => n > k
                                case _ => n >= k)
  {
    c := pi.VisitTerm(Binary(l, op, r), 0);
    ParseFormatInt(k);
  }

  /** What is neither mapped to a number nor a decimal literal counts as zero. */
  method CompareNoNumber(pi: PolicyInterpreter, l: Token, op: Token, r: Token, k: int) returns (c: Criterion)
    requires l.Word? && r.Word?
    requires IsOrder(op) && l.text in pi.mapper.mappers && ParseInt64(l.text).None?
    requires IsInt64(k) && r.text == FormatInt(k) && r.text !in pi.mapper.mappers
    ensures forall rec :: !pi.mapper.mappers[l.text](rec).Int64? ==>
              (c.pred(rec) <==> match op
                                case LT => 0 < k
                                case LE => 0 <= k
                                case GT => 0 > k
                                case _ => 0 >= k)
  {
    c := pi.VisitTerm(Binary(l, op, r), 0);
    ParseFormatInt(k);
  }

  lemma {:induction false} DigitsArePlain(s: string)
    requires IsDigits(s)
    ensures LISTSEP !in s && '[' !in s && QuoteFree(s) && QuoteFree("-" + s) && LISTSEP !in "-" + s && '[' !in "-" + s
  {
  }

  lemma FormatIntIsPlain(n: int)
    ensures LISTSEP !in FormatInt(n) && '[' !in FormatInt(n) && QuoteFree(FormatInt(n))
  {
    DigitsArePlain(FormatNat(if n < 0 then -n else n));
  }

  lemma FormatIntInjective(n: int, k: int)
    requires IsInt64(n) && IsInt64(k)
    ensures FormatInt(n) == FormatInt(k) <==> n == k
  {
    ParseFormatInt(n);
    ParseFormatInt(k);
  }

  lemma OnePart(fm: FieldMapper, op: Token, s: string, lit: string)
    ensures SaysOfSome(fm, op, [s], lit) <==> SaysOf(fm, op, s, lit)
  {
    assert [s][0] == s;
  }

  /** Whether an attribute whose text has one element equals a literal. */
  lemma SingleEquals(fm: FieldMapper, attr: string, text: string, rec: FlatRecord, s: string, lit: string)
    requires fm.MapStr(attr, rec) == s && LISTSEP !in s && IsLiteral(fm, text, lit)
    ensures Compares(fm, EQ, attr, text, rec) <==> s == lit
  {
    LiteralReads(fm, text, lit, rec);
    SplitWhole(s, LISTSEP);
    MatchesSays(fm, EQ, s, [s], lit);
    OnePart(fm, EQ, s, lit);
  }

  lemma NumberReads(fm: FieldMapper, attr: string, rec: FlatRecord, n: int)
    requires attr in fm.mappers && '[' !in attr && attr != SF_PROC_TTY && attr != SF_PROC_ENTRY && fm.mappers[attr](rec) == Int64(n)
    ensures fm.MapStr(attr, rec) == FormatInt(n)
  {
    assert IndexOf(attr, '[') == |attr|;
  }

  /** A number equals a decimal literal as a number, except for the two flags of a process, which are texts. */
  method CompareEqualNumber(pi: PolicyInterpreter, l: Token, r: Token, k: int) returns (c: Criterion)
    requires l.Word? && r.Word?
    requires l.text in pi.mapper.mappers && '[' !in l.text && l.text != SF_PROC_TTY && l.text != SF_PROC_ENTRY
    requires IsInt64(k) && r.text == FormatInt(k) && r.text !in pi.mapper.mappers
    ensures forall rec, n :: pi.mapper.mappers[l.text](rec) == Int64(n) && IsInt64(n) ==> (c.pred(rec) <==> n == k)
  {
    c := pi.VisitTerm(Binary(l, EQ, r), 0);
    FormatIntIsPlain(k);
    forall rec, n | pi.mapper.mappers[l.text](rec) == Int64(n) && IsInt64(n) ensures c.pred(rec) <==> n == k {
      FormatIntIsPlain(n);
      NumberReads(pi.mapper, l.text, rec, n);
      SingleEquals(pi.mapper, l.text, r.text, rec, FormatInt(n), FormatInt(k));
      FormatIntInjective(n, k);
    }
  }

  /** The truth value that a flag's text names. */
  function FlagText(b: bool): string
  {
    if b then "true" else "false"
  }

  lemma FlagReads(fm: FieldMapper, attr: string, rec: FlatRecord, b: bool)
    requires attr in fm.mappers && '[' !in attr
    requires fm.mappers[attr](rec) == Bool(b)
             || ((attr == SF_PROC_TTY || attr == SF_PROC_ENTRY) && fm.mappers[attr](rec).Int64? && b == (fm.mappers[attr](rec).n != 0))
    ensures fm.MapStr(attr, rec) == FlagText(b) && LISTSEP !in FlagText(b)
  {
    assert IndexOf(attr, '[') == |attr|;
  }

  /** A flag is compared as `true` or `false`. */
  method CompareFlag(pi: PolicyInterpreter, l: Token, r: Token) returns (c: Criterion)
    requires l.Word? && r.Word?
    requires l.text in pi.mapper.mappers && '[' !in l.text
    requires IsLiteral(pi.mapper, r.text, "true")
    ensures forall rec, b :: pi.mapper.mappers[l.text](rec) == Bool(b) ==> (c.pred(rec) <==> b)
    ensures l.text == SF_PROC_TTY || l.text == SF_PROC_ENTRY ==>
              forall rec, n :: pi.mapper.mappers[l.text](rec) == Int64(n) ==> (c.pred(rec) <==> n != 0)
  {
    c := pi.VisitTerm(Binary(l, EQ, r), 0);
    forall rec, b | pi.mapper.mappers[l.text](rec) == Bool(b) ensures c.pred(rec) <==> b {
      FlagReads(pi.mapper, l.text, rec, b);
      SingleEquals(pi.mapper, l.text, r.text, rec, FlagText(b), "true");
    }
    forall rec, n | (l.text == SF_PROC_TTY || l.text == SF_PROC_ENTRY) && pi.mapper.mappers[l.text](rec) == Int64(n)
      ensures c.pred(rec) <==> n != 0
    {
      FlagReads(pi.mapper, l.text, rec, n != 0);
      SingleEquals(pi.mapper, l.text, r.text, rec, FlagText(n != 0), "true");
    }
  }

  predicate IsZero(v: Value)
  {
    v == Str("") || v == Int64(0) || v == Int32(0) || v == Bool(false) || v == Ref(true)
  }

  /** `exists` holds when the mapped value is not the zero value of its type. */
  method TestPresence(pi: PolicyInterpreter, a: Token) returns (c: Criterion)
    requires a.Word?
    requires a.text in pi.mapper.mappers
    ensures forall rec :: c.pred(rec) <==> !IsZero(pi.mapper.mappers[a.text](rec))
  {
    c := pi.VisitTerm(Unary(a), 0);
  }

  // ------------------------------------------------------------------
  // Membership.

  /** The arguments are literals that are not names of lists. */
  ghost predicate AreLiterals(fm: FieldMapper, lists: L.Lists, args: seq<Arg>, lits: seq<string>)
  {
    |args| == |lits|
    && forall j :: 0 <= j < |args| ==>
         args[j].AtomArg? && args[j].atom.Word? && args[j].atom.text !in lists && IsLiteral(fm, args[j].atom.text, lits[j])
  }

  lemma LiteralLeaf(lists: L.Lists, text: string, lit: string, v: string)
    requires text !in lists && Spells(text, lit) && QuoteFree(lit)
    ensures L.IsLeaf(lists, text, v) <==> v == lit
  {
    L.LeafStep(lists, text, v);
    TrimSpelled(text, lit);
  }

  lemma LiteralLeaves(fm: FieldMapper, lists: L.Lists, args: seq<Arg>, lits: seq<string>, v: string)
    requires AreLiterals(fm, lists, args, lits)
    ensures IsArgLeaf(lists, args, v) <==> v in lits
  {
    if IsArgLeaf(lists, args, v) {
      var a :| a in args && IsLeafOf(lists, a, v);
      var j :| 0 <= j < |args| && args[j] == a;
      LiteralLeaf(lists, args[j].atom.text, lits[j], v);
    }
    if v in lits {
      var j :| 0 <= j < |lits| && lits[j] == v;
      LiteralLeaf(lists, args[j].atom.text, lits[j], v);
      assert args[j] in args && IsLeafOf(lists, args[j], v);
    }
  }

  lemma LiteralArgsFinite(fm: FieldMapper, lists: L.Lists, args: seq<Arg>, lits: seq<string>)
    requires AreLiterals(fm, lists, args, lits)
    ensures ArgsFinite(lists, args)
  {
  }

  ghost predicate SomePair(fm: FieldMapper, op: Token, parts: seq<string>, lits: seq<string>)
  {
    exists v :: v in lits && SaysOfSome(fm, ElementTest(op), parts, v)
  }

  function ElementTest(op: Token): Token
  {
    if op == IN then EQ else CONTAINS
  }

  lemma LiteralMatches(fm: FieldMapper, lists: L.Lists, l: string, op: Token, args: seq<Arg>, lits: seq<string>,
                       rec: FlatRecord, parts: seq<string>, v: string)
    requires (op.IN? || op.PMATCH?) && AreLiterals(fm, lists, args, lits) && IsMappedTo(fm, l, rec, parts) && v in lits
    ensures Matches(fm, MemberOperator(op), fm.MapStr(l, rec), v) <==> SaysOfSome(fm, ElementTest(op), parts, v)
  {
    AttributeReads(fm, l, rec, parts);
    SplitWhole(v, LISTSEP);
    MatchesSays(fm, ElementTest(op), fm.MapStr(l, rec), parts, v);
  }

  lemma MemberSays(fm: FieldMapper, env: Env, l: string, op: Token, args: seq<Arg>, lits: seq<string>, rec: FlatRecord, parts: seq<string>)
    requires (op.IN? || op.PMATCH?) && AreLiterals(fm, env.lists, args, lits) && IsMappedTo(fm, l, rec, parts)
    ensures (exists v :: IsArgLeaf(env.lists, args, v) && Matches(fm, MemberOperator(op), fm.MapStr(l, rec), v))
            <==> SomePair(fm, op, parts, lits)
  {
    if v :| IsArgLeaf(env.lists, args, v) && Matches(fm, MemberOperator(op), fm.MapStr(l, rec), v) {
      LiteralLeaves(fm, env.lists, args, lits, v);
      LiteralMatches(fm, env.lists, l, op, args, lits, rec, parts, v);
    }
    if v :| v in lits && SaysOfSome(fm, ElementTest(op), parts, v) {
      LiteralLeaves(fm, env.lists, args, lits, v);
      LiteralMatches(fm, env.lists, l, op, args, lits, rec, parts, v);
    }
  }

  /** `in` finds an element equal to one of the literals, `pmatch` one that contains one of them. */
  method TestMembership(pi: PolicyInterpreter, l: Token, op: Token, args: seq<Arg>, lits: seq<string>) returns (c: Criterion)
    requires l.Word?
    requires op.IN? || op.PMATCH?
    requires AreLiterals(pi.mapper, pi.lists, args, lits)
    ensures forall rec, parts :: IsMappedTo(pi.mapper, l.text, rec, parts) ==>
              (c.pred(rec) <==> SomePair(pi.mapper, op, parts, lits))
  {
    LiteralArgsFinite(pi.mapper, pi.lists, args, lits);
    c := pi.VisitTerm(Member(l, op, args), 0);
    forall rec, parts | IsMappedTo(pi.mapper, l.text, rec, parts) ensures c.pred(rec) <==> SomePair(pi.mapper, op, parts, lits) {
      MemberSays(pi.mapper, pi.Definitions(), l.text, op, args, lits, rec, parts);
    }
  }

  // ------------------------------------------------------------------
  // Connectives and names.

  method Negation(pi: PolicyInterpreter, u: Term, ghost n: nat) returns (c: Criterion, of: Criterion)
    requires TermGrounded(pi.Definitions(), u, n)
    ensures forall rec :: c.pred(rec) <==> !of.pred(rec)
    ensures forall rec :: of.pred(rec) <==> TermHolds(pi.mapper, pi.Definitions(), rec, u, n)
  {
    c := pi.VisitTerm(Not(u), n);
    of := pi.VisitTerm(u, n);
  }

  /** A name without a macro never holds; one with a macro holds as the macro's body does. */
  method NamedCondition(pi: PolicyInterpreter, x: string, ghost n: nat) returns (c: Criterion, body: Option<Criterion>)
    requires TermGrounded(pi.Definitions(), Variable(x), n)
    ensures x !in pi.macroCtxs ==> forall rec :: !c.pred(rec)
    ensures x in pi.macroCtxs ==> body.Some? && forall rec :: c.pred(rec) <==> body.value.pred(rec)
    ensures x in pi.macroCtxs ==>
              forall rec :: body.value.pred(rec) <==> ConjsHold(pi.mapper, pi.Definitions(), rec, pi.macroCtxs[x].disjuncts, n - 1)
  {
    c := pi.VisitTerm(Variable(x), n);
    body := None;
    if x in pi.macroCtxs {
      var b := pi.VisitExpression(pi.macroCtxs[x], n - 1);
      body := Some(b);
    }
  }

  /** An expression holds when all terms of one of its conjunctions do; parentheses change nothing. */
  method Connected(pi: PolicyInterpreter, e: Expr, ghost n: nat) returns (c: Criterion, p: Criterion, terms: seq<seq<Criterion>>)
    requires ConjsGrounded(pi.Definitions(), e.disjuncts, n)
    ensures |terms| == |e.disjuncts| && forall i :: 0 <= i < |terms| ==> |terms[i]| == |e.disjuncts[i].terms|
    ensures forall rec :: c.pred(rec) <==> exists i :: 0 <= i < |terms| && AllOf(terms[i], rec)
    ensures forall rec :: p.pred(rec) <==> c.pred(rec)
    ensures forall i, j, rec :: 0 <= i < |terms| && 0 <= j < |terms[i]| ==>
              (terms[i][j].pred(rec) <==> TermHolds(pi.mapper, pi.Definitions(), rec, e.disjuncts[i].terms[j], n))
  {
    c := pi.VisitExpression(e, n);
    p := pi.VisitTerm(Paren(e), n);
    terms := [];
    for i := 0 to |e.disjuncts|
      invariant |terms| == i && forall a :: 0 <= a < i ==> |terms[a]| == |e.disjuncts[a].terms|
      invariant forall a, b, rec :: 0 <= a < i && 0 <= b < |terms[a]| ==>
                  (terms[a][b].pred(rec) <==> TermHolds(pi.mapper, pi.Definitions(), rec, e.disjuncts[a].terms[b], n))
    {
      assert TermsGrounded(pi.Definitions(), e.disjuncts[i].terms, n);
      var row := CompileTerms(pi, e.disjuncts[i].terms, n);
      terms := terms + [row];
    }
    forall rec ensures c.pred(rec) <==> exists i :: 0 <= i < |terms| && AllOf(terms[i], rec) {
      forall i | 0 <= i < |terms| ensures AllOf(terms[i], rec) <==> TermsHold(pi.mapper, pi.Definitions(), rec, e.disjuncts[i].terms, n) {
      }
    }
  }

  predicate AllOf(cs: seq<Criterion>, rec: FlatRecord)
  {
    forall j :: 0 <= j < |cs| ==> cs[j].pred(rec)
  }

  method CompileTerms(pi: PolicyInterpreter, ts: seq<Term>, ghost n: nat) returns (cs: seq<Criterion>)
    requires TermsGrounded(pi.Definitions(), ts, n)
    ensures |cs| == |ts|
    ensures forall j, rec :: 0 <= j < |ts| ==> (cs[j].pred(rec) <==> TermHolds(pi.mapper, pi.Definitions(), rec, ts[j], n))
  {
    cs := [];
    for j := 0 to |ts|
      invariant |cs| == j
      invariant forall b, rec :: 0 <= b < j ==> (cs[b].pred(rec) <==> TermHolds(pi.mapper, pi.Definitions(), rec, ts[b], n))
    {
      assert TermGrounded(pi.Definitions(), ts[j], n);
      var c := pi.VisitTerm(ts[j], n);
      cs := cs + [c];
    }
  }
}
