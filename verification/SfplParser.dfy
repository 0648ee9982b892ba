/**
 The condition part of the policy parser: loops over `or` and `and`, and one
 production per kind of term, chosen by the next two tokens.

 `None` stands for a syntax error; the source reports it and rejects the file.
 */
module SfplParser {
  import opened Text
  import opened SfplSyntax

  type Tokens = seq<Token>

  /** What follows a complete term, conjunction or disjunction. */
  predicate EndsTerm(rest: Tokens)
  {
    rest == [] || !rest[0].IsOperator()
  }

  predicate EndsConj(rest: Tokens)
  {
    EndsTerm(rest) && (rest == [] || rest[0] != AND)
  }

  predicate EndsExpr(rest: Tokens)
  {
    EndsConj(rest) && (rest == [] || rest[0] != OR)
  }

  // ------------------------------------------------------------------
  // The parser as functions: each consumes a nonempty prefix of its input.

  function ParseAtoms(ts: Tokens): (r: Option<(seq<Token>, Tokens)>)
    ensures r.Some? ==> |r.value.1| < |ts|
  {
    if ts == [] || !ts[0].IsAtom() then None
    else if |ts| >= 3 && ts[1] == SEP && ts[2].IsAtom() then
      match ParseAtoms(ts[2..])
      case None => None
      case Some((atoms, rest)) => Some(([ts[0]] + atoms, rest))
    else Some(([ts[0]], ts[1..]))
  }

  function CloseItems(atoms: seq<Token>, ts: Tokens): (r: Option<(Items, Tokens)>)
    ensures r.Some? ==> |r.value.1| < |ts|
  {
    var trailing := ts != [] && ts[0] == SEP;
    var rest := if trailing then ts[1..] else ts;
    if rest == [] || rest[0] != RBRACK then None else Some((Items(atoms, trailing), rest[1..]))
  }

  function ParseItems(ts: Tokens): (r: Option<(Items, Tokens)>)
    ensures r.Some? ==> |r.value.1| < |ts|
  {
    if ts == [] || ts[0] != LBRACK then None
    else
      match ParseAtoms(ts[1..])
      case None => CloseItems([], ts[1..])
      case Some((atoms, rest)) => CloseItems(atoms, rest)
  }

  function ParseArg(ts: Tokens): (r: Option<(Arg, Tokens)>)
    ensures r.Some? ==> |r.value.1| < |ts|
  {
    if ts == [] then None
    else if ts[0].IsAtom() then Some((AtomArg(ts[0]), ts[1..]))
    else if ts[0] == LBRACK then
      match ParseItems(ts)
      case None => None
      case Some((items, rest)) => Some((ItemsArg(items), rest))
    else None
  }

  function ParseArgs(ts: Tokens): (r: Option<(seq<Arg>, Tokens)>)
    ensures r.Some? ==> |r.value.1| < |ts|
    decreases |ts|
  {
    match ParseArg(ts)
    case None => None
    case Some((arg, rest)) =>
      if rest != [] && rest[0] == SEP then
        match ParseArgs(rest[1..])
        case None => None
        case Some((args, rest')) => Some(([arg] + args, rest'))
      else Some(([arg], rest))
  }

  function ParseMember(ts: Tokens): (r: Option<(Term, Tokens)>)
    ensures r.Some? ==> |r.value.1| < |ts|
  {
    if |ts| >= 3 && ts[2] == LPAREN then
      match ParseArgs(ts[3..])
      case None => None
      case Some((args, rest)) =>
        if rest != [] && rest[0] == RPAREN then Some((Member(ts[0], ts[1], args), rest[1..])) else None
    else None
  }

  /** The alternative that two tokens of lookahead select. */
  datatype Alternative = VariableAlt | NotAlt | UnaryAlt | BinaryAlt | MemberAlt | ParenAlt | NoAlt

  function Predict(ts: Tokens): Alternative
  {
    if ts == [] then NoAlt
    else if ts[0] == NOT then NotAlt
    else if ts[0] == LPAREN then ParenAlt
    else if !ts[0].IsAtom() then NoAlt
    else if |ts| >= 2 && ts[1] == EXISTS then UnaryAlt
    else if |ts| >= 2 && ts[1].IsComparison() then BinaryAlt
    else if |ts| >= 2 && ts[1].IsMembership() then MemberAlt
    else if ts[0].Word? && ts[0].kind == ID then VariableAlt
    else NoAlt
  }

  function ParseTerm(ts: Tokens): (r: Option<(Term, Tokens)>)
    ensures r.Some? ==> |r.value.1| < |ts|
    decreases |ts|, 0
  {
    match Predict(ts)
    case VariableAlt => Some((Variable(ts[0].text), ts[1..]))
    case NotAlt =>
      (match ParseTerm(ts[1..])
       case None => None
       case Some((t, rest)) => Some((Not(t), rest)))
    case UnaryAlt => Some((Unary(ts[0]), ts[2..]))
    case BinaryAlt =>
      if |ts| >= 3 && ts[2].IsAtom() then Some((Binary(ts[0], ts[1], ts[2]), ts[3..])) else None
    case MemberAlt => ParseMember(ts)
    case ParenAlt =>
      (match ParseOr(ts[1..])
       case None => None
       case Some((e, rest)) =>
         if rest != [] && rest[0] == RPAREN then Some((Paren(e), rest[1..])) else None)
    case NoAlt => None
  }

  function ParseAnd(ts: Tokens): (r: Option<(Conj, Tokens)>)
    ensures r.Some? ==> |r.value.1| < |ts|
    decreases |ts|, 1
  {
    match ParseTerm(ts)
    case None => None
    case Some((t, rest)) =>
      if rest != [] && rest[0] == AND then
        match ParseAnd(rest[1..])
        case None => None
        case Some((c, rest')) => Some((Conj([t] + c.terms), rest'))
      else Some((Conj([t]), rest))
  }

  function ParseOr(ts: Tokens): (r: Option<(Expr, Tokens)>)
    ensures r.Some? ==> |r.value.1| < |ts|
    decreases |ts|, 2
  {
    match ParseAnd(ts)
    case None => None
    case Some((c, rest)) =>
      if rest != [] && rest[0] == OR then
        match ParseOr(rest[1..])
        case None => None
        case Some((e, rest')) => Some((Expr([c] + e.disjuncts), rest'))
      else Some((Expr([c]), rest))
  }

  // ------------------------------------------------------------------
  // Every rendered tree parses back to itself.

  lemma {:induction false} AtomsRoundTrip(atoms: seq<Token>, rest: Tokens)
    requires |atoms| >= 1 && forall i :: 0 <= i < |atoms| ==> atoms[i].IsAtom()
    requires |rest| < 2 || rest[0] != SEP || !rest[1].IsAtom()
    ensures ParseAtoms(RenderAtoms(atoms, rest)) == Some((atoms, rest))
  {
    var ts := RenderAtoms(atoms, rest);
    if |atoms| == 1 {
      assert ts[1..] == rest && [ts[0]] == atoms;
    } else {
      AtomsRoundTrip(atoms[1..], rest);
      assert ts[2..] == RenderAtoms(atoms[1..], rest);
      assert [atoms[0]] + atoms[1..] == atoms;
    }
  }

  lemma ItemsRoundTrip(items: Items, rest: Tokens)
    requires WellFormedItems(items)
    ensures ParseItems(RenderItems(items, rest)) == Some((items, rest))
  {
    var close := if items.trailing then [SEP, RBRACK] + rest else [RBRACK] + rest;
    assert RenderItems(items, rest)[1..] == RenderAtoms(items.atoms, close);
    assert CloseItems(items.atoms, close) == Some((items, rest)) by {
      assert ([RBRACK] + rest)[1..] == rest;
      assert ([SEP, RBRACK] + rest)[1..] == [RBRACK] + rest;
    }
    if items.atoms != [] {
      AtomsRoundTrip(items.atoms, close);
    }
  }

  lemma ArgRoundTrip(arg: Arg, rest: Tokens)
    requires WellFormedArg(arg)
    ensures ParseArg(RenderArg(arg, rest)) == Some((arg, rest))
  {
    match arg
    case AtomArg(atom) =>
      assert ([atom] + rest)[1..] == rest;
    case ItemsArg(items) =>
      ItemsRoundTrip(items, rest);
  }

  lemma {:induction false} ArgsRoundTrip(args: seq<Arg>, rest: Tokens)
    requires |args| >= 1 && forall i :: 0 <= i < |args| ==> WellFormedArg(args[i])
    requires rest == [] || rest[0] != SEP
    ensures ParseArgs(RenderArgs(args, rest)) == Some((args, rest))
  {
    if |args| == 1 {
      ArgRoundTrip(args[0], rest);
      assert [args[0]] == args;
    } else {
      var more := [SEP] + RenderArgs(args[1..], rest);
      ArgRoundTrip(args[0], more);
      assert more[1..] == RenderArgs(args[1..], rest);
      ArgsRoundTrip(args[1..], rest);
      assert [args[0]] + args[1..] == args;
    }
  }

  lemma MemberRoundTrip(l: Token, op: Token, args: seq<Arg>, rest: Tokens)
    requires |args| >= 1 && forall i :: 0 <= i < |args| ==> WellFormedArg(args[i])
    ensures ParseMember([l, op, LPAREN] + RenderArgs(args, [RPAREN] + rest)) == Some((Member(l, op, args), rest))
  {
    var close := [RPAREN] + rest;
    var ts := [l, op, LPAREN] + RenderArgs(args, close);
    assert ts[3..] == RenderArgs(args, close);
    ArgsRoundTrip(args, close);
    assert close[1..] == rest;
  }

  lemma VariableRoundTrip(name: string, rest: Tokens)
    requires WellFormedTerm(Variable(name)) && EndsTerm(rest)
    ensures ParseTerm(RenderTerm(Variable(name), rest)) == Some((Variable(name), rest))
  {
    var ts := RenderTerm(Variable(name), rest);
    assert Predict(ts) == VariableAlt by { assert |ts| >= 2 ==> ts[1] == rest[0]; }
    assert ts[1..] == rest;
  }

  lemma {:induction false} TermRoundTrip(t: Term, rest: Tokens)
    requires WellFormedTerm(t) && EndsTerm(rest)
    ensures ParseTerm(RenderTerm(t, rest)) == Some((t, rest))
    decreases t, 0
  {
    match t
    case Variable(name) => VariableRoundTrip(name, rest);
    case Not(u) =>
      TermRoundTrip(u, rest);
      NotStep(u, rest);
    case Unary(a) =>
      assert RenderTerm(t, rest)[2..] == rest;
    case Binary(l, op, r) =>
      assert RenderTerm(t, rest)[3..] == rest;
    case Member(l, op, args) => MembershipRoundTrip(l, op, args, rest);
    case Paren(e) => ParenRoundTrip(e, rest);
  }

  lemma NotStep(u: Term, rest: Tokens)
    requires ParseTerm(RenderTerm(u, rest)) == Some((u, rest))
    ensures ParseTerm(RenderTerm(Not(u), rest)) == Some((Not(u), rest))
  {
    assert RenderTerm(Not(u), rest)[1..] == RenderTerm(u, rest);
  }

  lemma MembershipRoundTrip(l: Token, op: Token, args: seq<Arg>, rest: Tokens)
    requires WellFormedTerm(Member(l, op, args))
    ensures ParseTerm(RenderTerm(Member(l, op, args), rest)) == Some((Member(l, op, args), rest))
  {
    MemberRoundTrip(l, op, args, rest);
    assert Predict(RenderTerm(Member(l, op, args), rest)) == MemberAlt;
  }

  lemma {:induction false} ParenRoundTrip(e: Expr, rest: Tokens)
    requires WellFormed(e)
    ensures ParseTerm(RenderTerm(Paren(e), rest)) == Some((Paren(e), rest))
    decreases e, 3
  {
    var close := [RPAREN] + rest;
    ConjsRoundTrip(e.disjuncts, close);
    assert RenderTerm(Paren(e), rest)[1..] == RenderConjs(e.disjuncts, close);
    assert close[1..] == rest;
  }

  lemma {:induction false} TermsRoundTrip(terms: seq<Term>, rest: Tokens)
    requires WellFormedTerms(terms) && EndsConj(rest)
    ensures ParseAnd(RenderTerms(terms, rest)) == Some((Conj(terms), rest))
    decreases terms, 1
  {
    if |terms| == 1 {
      TermRoundTrip(terms[0], rest);
      assert [terms[0]] == terms;
    } else {
      var more := [AND] + RenderTerms(terms[1..], rest);
      TermRoundTrip(terms[0], more);
      assert more[1..] == RenderTerms(terms[1..], rest);
      TermsRoundTrip(terms[1..], rest);
      assert [terms[0]] + terms[1..] == terms;
    }
  }

  lemma {:induction false} ConjsRoundTrip(conjs: seq<Conj>, rest: Tokens)
    requires WellFormedConjs(conjs) && EndsExpr(rest)
    ensures ParseOr(RenderConjs(conjs, rest)) == Some((Expr(conjs), rest))
    decreases conjs, 2
  {
    if |conjs| == 1 {
      TermsRoundTrip(conjs[0].terms, rest);
      assert [conjs[0]] == conjs;
    } else {
      var more := [OR] + RenderConjs(conjs[1..], rest);
      TermsRoundTrip(conjs[0].terms, more);
      assert more[1..] == RenderConjs(conjs[1..], rest);
      ConjsRoundTrip(conjs[1..], rest);
      assert [conjs[0]] + conjs[1..] == conjs;
    }
  }

  /**
   Every tree is recovered from its rendering, and nothing more is consumed: the
   loops give `not` precedence over `and`, and `and` over `or`.
   */
  lemma ExprRoundTrip(e: Expr, rest: Tokens)
    requires WellFormed(e) && EndsExpr(rest)
    ensures ParseOr(Render(e, rest)) == Some((e, rest))
  {
    ConjsRoundTrip(e.disjuncts, rest);
  }

  // ------------------------------------------------------------------
  // Whatever parses is the rendering of the tree returned.

  lemma {:induction false} AtomsSound(ts: Tokens)
    requires ParseAtoms(ts).Some?
    ensures var (atoms, rest) := ParseAtoms(ts).value;
            |atoms| >= 1 && (forall i :: 0 <= i < |atoms| ==> atoms[i].IsAtom()) && ts == RenderAtoms(atoms, rest)
  {
    if |ts| >= 3 && ts[1] == SEP && ts[2].IsAtom() {
      AtomsSound(ts[2..]);
      var (atoms, rest) := ParseAtoms(ts[2..]).value;
      assert ([ts[0]] + atoms)[1..] == atoms;
    }
  }

  lemma CloseSound(atoms: seq<Token>, ts: Tokens)
    requires CloseItems(atoms, ts).Some?
    ensures var (items, rest) := CloseItems(atoms, ts).value;
            items.atoms == atoms && ts == if items.trailing then [SEP, RBRACK] + rest else [RBRACK] + rest
  {
    if ts[0] == SEP {
      assert ts == [ts[0], ts[1]] + ts[1..][1..];
    }
  }

  lemma ItemsSound(ts: Tokens)
    requires ParseItems(ts).Some?
    ensures var (items, rest) := ParseItems(ts).value;
            WellFormedItems(items) && ts == RenderItems(items, rest)
  {
    if ParseAtoms(ts[1..]).Some? {
      AtomsSound(ts[1..]);
      CloseSound(ParseAtoms(ts[1..]).value.0, ParseAtoms(ts[1..]).value.1);
    } else {
      CloseSound([], ts[1..]);
    }
  }

  lemma ArgSound(ts: Tokens)
    requires ParseArg(ts).Some?
    ensures var (arg, rest) := ParseArg(ts).value;
            WellFormedArg(arg) && ts == RenderArg(arg, rest)
  {
    if ts[0] == LBRACK {
      ItemsSound(ts);
    }
  }

  lemma {:induction false} ArgsSound(ts: Tokens)
    requires ParseArgs(ts).Some?
    ensures var (args, rest) := ParseArgs(ts).value;
            |args| >= 1 && (forall i :: 0 <= i < |args| ==> WellFormedArg(args[i])) && ts == RenderArgs(args, rest)
    decreases |ts|
  {
    ArgSound(ts);
    var (arg, rest) := ParseArg(ts).value;
    if rest != [] && rest[0] == SEP {
      ArgsSound(rest[1..]);
      var (args, rest') := ParseArgs(rest[1..]).value;
      assert ([arg] + args)[1..] == args;
      assert rest == [SEP] + rest[1..];
    }
  }

  /** What a membership test that parses is made of. */
  lemma MemberParts(ts: Tokens)
    requires ParseMember(ts).Some?
    ensures |ts| >= 3 && ts[2] == LPAREN && ParseArgs(ts[3..]).Some?
    ensures var (args, close) := ParseArgs(ts[3..]).value;
            close != [] && close[0] == RPAREN && ParseMember(ts).value == (Member(ts[0], ts[1], args), close[1..])
  {
  }

  lemma MemberSound(ts: Tokens)
    requires ParseMember(ts).Some?
    ensures var (t, rest) := ParseMember(ts).value;
            t.Member? && t.left == ts[0] && t.op == ts[1] && |t.args| >= 1
            && (forall i :: 0 <= i < |t.args| ==> WellFormedArg(t.args[i]))
            && ts == RenderTerm(t, rest)
  {
    MemberParts(ts);
    ArgsSound(ts[3..]);
    var (args, close) := ParseArgs(ts[3..]).value;
    Opened(ts);
    assert close == [RPAREN] + close[1..];
  }

  lemma Opened(ts: Tokens)
    requires |ts| >= 3 && ts[2] == LPAREN
    ensures ts == [ts[0], ts[1], LPAREN] + ts[3..]
  {
  }

  lemma {:induction false} TermSound(ts: Tokens)
    requires ParseTerm(ts).Some?
    ensures var (t, rest) := ParseTerm(ts).value;
            WellFormedTerm(t) && ts == RenderTerm(t, rest)
    decreases |ts|, 0
  {
    match Predict(ts)
    case VariableAlt =>
    case NotAlt =>
      TermSound(ts[1..]);
    case UnaryAlt =>
    case BinaryAlt =>
    case MemberAlt =>
      MemberSound(ts);
    case ParenAlt =>
      ExprSound(ts[1..]);
      var (e, rest) := ParseOr(ts[1..]).value;
      assert rest == [RPAREN] + rest[1..];
    case NoAlt =>
  }

  lemma {:induction false} ConjSound(ts: Tokens)
    requires ParseAnd(ts).Some?
    ensures var (c, rest) := ParseAnd(ts).value;
            WellFormedTerms(c.terms) && ts == RenderTerms(c.terms, rest)
    decreases |ts|, 1
  {
    TermSound(ts);
    var (t, rest) := ParseTerm(ts).value;
    if rest != [] && rest[0] == AND {
      ConjSound(rest[1..]);
      var (c, rest') := ParseAnd(rest[1..]).value;
      assert ([t] + c.terms)[1..] == c.terms;
      assert rest == [AND] + rest[1..];
    }
  }

  /** Only renderings parse, so with `ExprRoundTrip` a token sequence has at most one reading. */
  lemma {:induction false} ExprSound(ts: Tokens)
    requires ParseOr(ts).Some?
    ensures var (e, rest) := ParseOr(ts).value;
            WellFormed(e) && ts == Render(e, rest)
    decreases |ts|, 2
  {
    ConjSound(ts);
    var (c, rest) := ParseAnd(ts).value;
    if rest != [] && rest[0] == OR {
      ExprSound(rest[1..]);
      var (e, rest') := ParseOr(rest[1..]).value;
      assert ([c] + e.disjuncts)[1..] == e.disjuncts;
      assert rest == [OR] + rest[1..];
    }
  }

  // ------------------------------------------------------------------
  // The parser as the source has it: a cursor over the token stream and loops.

  /** What the `or` loop returns from here on, having read `conjs`. */
  function ContinueOr(conjs: seq<Conj>, rest: Tokens): Option<(Expr, Tokens)>
  {
    if rest != [] && rest[0] == OR then
      match ParseOr(rest[1..])
      case None => None
      case Some((e, rest')) => Some((Expr(conjs + e.disjuncts), rest'))
    else Some((Expr(conjs), rest))
  }

  function ContinueAnd(terms: seq<Term>, rest: Tokens): Option<(Conj, Tokens)>
  {
    if rest != [] && rest[0] == AND then
      match ParseAnd(rest[1..])
      case None => None
      case Some((c, rest')) => Some((Conj(terms + c.terms), rest'))
    else Some((Conj(terms), rest))
  }

  function ContinueArgs(args: seq<Arg>, rest: Tokens): Option<(seq<Arg>, Tokens)>
  {
    if rest != [] && rest[0] == SEP then
      match ParseArgs(rest[1..])
      case None => None
      case Some((more, rest')) => Some((args + more, rest'))
    else Some((args, rest))
  }

  function ContinueAtoms(atoms: seq<Token>, rest: Tokens): Option<(seq<Token>, Tokens)>
  {
    if |rest| >= 2 && rest[0] == SEP && rest[1].IsAtom() then
      match ParseAtoms(rest[1..])
      case None => None
      case Some((more, rest')) => Some((atoms + more, rest'))
    else Some((atoms, rest))
  }

  // One turn of each loop reads one more element and leaves the outcome unchanged.

  lemma OrTurn(conjs: seq<Conj>, ts: Tokens)
    requires ts != [] && ts[0] == OR
    ensures ContinueOr(conjs, ts) ==
            match ParseAnd(ts[1..]) case None => None case Some((c, rest)) => ContinueOr(conjs + [c], rest)
  {
    match ParseAnd(ts[1..])
    case None =>
    case Some((c, rest)) =>
      assert forall more: seq<Conj> :: (conjs + [c]) + more == conjs + ([c] + more);
  }

  lemma AndTurn(terms: seq<Term>, ts: Tokens)
    requires ts != [] && ts[0] == AND
    ensures ContinueAnd(terms, ts) ==
            match ParseTerm(ts[1..]) case None => None case Some((t, rest)) => ContinueAnd(terms + [t], rest)
  {
    match ParseTerm(ts[1..])
    case None =>
    case Some((t, rest)) =>
      assert forall more: seq<Term> :: (terms + [t]) + more == terms + ([t] + more);
  }

  lemma ArgsTurn(args: seq<Arg>, ts: Tokens)
    requires ts != [] && ts[0] == SEP
    ensures ContinueArgs(args, ts) ==
            match ParseArg(ts[1..]) case None => None case Some((a, rest)) => ContinueArgs(args + [a], rest)
  {
    match ParseArg(ts[1..])
    case None =>
    case Some((a, rest)) =>
      assert forall more: seq<Arg> :: (args + [a]) + more == args + ([a] + more);
  }

  lemma AtomsTurn(atoms: seq<Token>, ts: Tokens)
    requires |ts| >= 2 && ts[0] == SEP && ts[1].IsAtom()
    ensures ContinueAtoms(atoms, ts) == ContinueAtoms(atoms + [ts[1]], ts[2..])
  {
    assert ts[1..][1..] == ts[2..];
    assert |ts| >= 4 ==> ts[1..][2..] == ts[2..][1..];
    assert forall more: seq<Token> :: (atoms + [ts[1]]) + more == atoms + ([ts[1]] + more);
  }

  class Parser {
    const tokens: Tokens
    var pos: nat

    constructor (tokens: Tokens)
      ensures Valid() && this.tokens == tokens && Rest() == tokens
    {
      this.tokens := tokens;
      pos := 0;
    }

    ghost predicate Valid()
      reads this
    {
      pos <= |tokens|
    }

    function Rest(): Tokens
      requires Valid()
      reads this
    {
      tokens[pos..]
    }

    /** The parse gave `expected`: the same phrase or failure, and the cursor stands at the rest. */
    ghost predicate Agrees<T>(phrase: Option<T>, expected: Option<(T, Tokens)>)
      reads this
    {
      Valid() &&
      match expected
      case None => phrase.None?
      case Some((x, rest)) => phrase == Some(x) && Rest() == rest
    }

    /** The loop of `Items` over atoms. */
    method Atoms() returns (atoms: seq<Token>)
      requires Valid() && pos < |tokens| && tokens[pos].IsAtom()
      modifies this`pos
      ensures Agrees(Some(atoms), ParseAtoms(old(Rest()))) && old(pos) < pos
    {
      ghost var start := Rest();
      atoms := [tokens[pos]];
      pos := pos + 1;
      assert |start| >= 2 ==> start[2..] == Rest()[1..];
      assert start[1..] == Rest();
      while pos + 1 < |tokens| && tokens[pos] == SEP && tokens[pos + 1].IsAtom()
        invariant Valid() && old(pos) < pos
        invariant ParseAtoms(start) == ContinueAtoms(atoms, Rest())
      {
        AtomsTurn(atoms, Rest());
        assert Rest()[2..] == tokens[pos + 2..];
        atoms := atoms + [tokens[pos + 1]];
        pos := pos + 2;
      }
    }

    method Items() returns (r: Option<Items>)
      requires Valid()
      modifies this`pos
      ensures Agrees(r, ParseItems(old(Rest()))) && old(pos) <= pos
    {
      if pos == |tokens| || tokens[pos] != LBRACK {
        return None;
      }
      pos := pos + 1;
      assert Rest() == old(Rest())[1..];
      var atoms: seq<Token> := [];
      if pos < |tokens| && tokens[pos].IsAtom() {
        atoms := Atoms();
      }
      assert ParseItems(old(Rest())) == CloseItems(atoms, Rest());
      r := ItemsEnd(atoms);
    }

    /** An optional separator and the closing bracket. */
    method ItemsEnd(atoms: seq<Token>) returns (r: Option<Items>)
      requires Valid()
      modifies this`pos
      ensures Agrees(r, CloseItems(atoms, old(Rest()))) && old(pos) <= pos
    {
      ghost var close := Rest();
      var trailing := pos < |tokens| && tokens[pos] == SEP;
      if trailing {
        pos := pos + 1;
        assert Rest() == close[1..];
      }
      if pos == |tokens| || tokens[pos] != RBRACK {
        return None;
      }
      ghost var end := Rest();
      pos := pos + 1;
      assert Rest() == end[1..];
      return Some(SfplSyntax.Items(atoms, trailing));
    }

    method Arg() returns (r: Option<Arg>)
      requires Valid()
      modifies this`pos
      ensures Agrees(r, ParseArg(old(Rest()))) && old(pos) <= pos
    {
      if pos < |tokens| && tokens[pos].IsAtom() {
        pos := pos + 1;
        return Some(AtomArg(tokens[pos - 1]));
      }
      var items := Items();
      return match items case None => None case Some(i) => Some(ItemsArg(i));
    }

    method Args() returns (r: Option<seq<Arg>>)
      requires Valid()
      modifies this`pos
      ensures Agrees(r, ParseArgs(old(Rest()))) && old(pos) <= pos
    {
      ghost var start := Rest();
      var arg := Arg();
      if arg.None? {
        return None;
      }
      var args := [arg.value];
      while pos < |tokens| && tokens[pos] == SEP
        invariant Valid() && old(pos) <= pos
        invariant ParseArgs(start) == ContinueArgs(args, Rest())
        decreases |tokens| - pos
      {
        ArgsTurn(args, Rest());
        assert Rest()[1..] == tokens[pos + 1..];
        pos := pos + 1;
        arg := Arg();
        if arg.None? {
          return None;
        }
        args := args + [arg.value];
      }
      return Some(args);
    }

    method Term() returns (r: Option<Term>)
      requires Valid()
      modifies this`pos
      ensures Agrees(r, ParseTerm(old(Rest()))) && old(pos) <= pos
      decreases |tokens| - pos, 0
    {
      match Predict(Rest())
      case VariableAlt =>
        pos := pos + 1;
        return Some(Variable(tokens[pos - 1].text));
      case NotAlt =>
        pos := pos + 1;
        assert Rest() == old(Rest())[1..];
        var t := Term();
        return match t case None => None case Some(u) => Some(Not(u));
      case UnaryAlt =>
        pos := pos + 2;
        return Some(Unary(tokens[pos - 2]));
      case BinaryAlt =>
        if pos + 2 < |tokens| && tokens[pos + 2].IsAtom() {
          pos := pos + 3;
          return Some(Binary(tokens[pos - 3], tokens[pos - 2], tokens[pos - 1]));
        }
        return None;
      case MemberAlt =>
        if pos + 2 < |tokens| && tokens[pos + 2] == LPAREN {
          var l, op := tokens[pos], tokens[pos + 1];
          pos := pos + 3;
          assert Rest() == old(Rest())[3..];
          var args := Args();
          if args.Some? && pos < |tokens| && tokens[pos] == RPAREN {
            pos := pos + 1;
            return Some(Member(l, op, args.value));
          }
        }
        return None;
      case ParenAlt =>
        pos := pos + 1;
        assert Rest() == old(Rest())[1..];
        var e := OrExpression();
        if e.Some? && pos < |tokens| && tokens[pos] == RPAREN {
          pos := pos + 1;
          return Some(Paren(e.value));
        }
        return None;
      case NoAlt =>
        return None;
    }

    method AndExpression() returns (r: Option<Conj>)
      requires Valid()
      modifies this`pos
      ensures Agrees(r, ParseAnd(old(Rest()))) && old(pos) <= pos
      decreases |tokens| - pos, 1
    {
      ghost var start := Rest();
      var t := Term();
      if t.None? {
        return None;
      }
      var terms := [t.value];
      while pos < |tokens| && tokens[pos] == AND
        invariant Valid() && old(pos) <= pos
        invariant ParseAnd(start) == ContinueAnd(terms, Rest())
        decreases |tokens| - pos
      {
        AndTurn(terms, Rest());
        assert Rest()[1..] == tokens[pos + 1..];
        pos := pos + 1;
        t := Term();
        if t.None? {
          return None;
        }
        terms := terms + [t.value];
      }
      return Some(Conj(terms));
    }

    /** `Or_expression` returns the one tree its input renders, or fails when there is none. */
    method OrExpression() returns (r: Option<Expr>)
      requires Valid()
      modifies this`pos
      ensures Agrees(r, ParseOr(old(Rest()))) && old(pos) <= pos
      decreases |tokens| - pos, 2
    {
      ghost var start := Rest();
      var c := AndExpression();
      if c.None? {
        return None;
      }
      var conjs := [c.value];
      while pos < |tokens| && tokens[pos] == OR
        invariant Valid() && old(pos) <= pos
        invariant ParseOr(start) == ContinueOr(conjs, Rest())
        decreases |tokens| - pos
      {
        OrTurn(conjs, Rest());
        assert Rest()[1..] == tokens[pos + 1..];
        pos := pos + 1;
        c := AndExpression();
        if c.None? {
          return None;
        }
        conjs := conjs + [c.value];
      }
      return Some(Expr(conjs));
    }
  }
}
