/** Tokens and condition trees of the policy language, and the token rendering of a tree. */
module SfplSyntax {
  import opened Text

  datatype WordKind = ID | PATH | NUMBER | TAG | STRING

  datatype Token =
    | Word(kind: WordKind, text: string)
    | LT | LE | GT | GE | EQ | NEQ
    | CONTAINS | ICONTAINS | STARTSWITH | ENDSWITH
    | IN | PMATCH | EXISTS
    | AND | OR | NOT
    | LPAREN | RPAREN | LBRACK | RBRACK | SEP
    | OtherToken(text: string)
  {
    /** `<` and `>` are also atoms: they name event directions. */
    predicate IsAtom()
    {
      Word? || LT? || GT?
    }

    predicate IsComparison()
    {
      LT? || LE? || GT? || GE? || EQ? || NEQ? || CONTAINS? || ICONTAINS? || STARTSWITH? || ENDSWITH?
    }

    predicate IsMembership()
    {
      IN? || PMATCH?
    }

    predicate IsOperator()
    {
      EXISTS? || IsComparison() || IsMembership()
    }

    function Text(): string
    {
      match this
      case Word(_, text) => text
      case LT => "<"
      case GT => ">"
      case _ => ""
    }
  }

  datatype Items = Items(atoms: seq<Token>, trailing: bool)

  datatype Arg = AtomArg(atom: Token) | ItemsArg(items: Items)

  datatype Term =
    | Variable(name: string)
    | Not(term: Term)
    | Unary(atom: Token)
    | Binary(left: Token, op: Token, right: Token)
    | Member(left: Token, op: Token, args: seq<Arg>)
    | Paren(expr: Expr)

  datatype Conj = Conj(terms: seq<Term>)

  datatype Expr = Expr(disjuncts: seq<Conj>)

  predicate WellFormedItems(items: Items)
  {
    forall i :: 0 <= i < |items.atoms| ==> items.atoms[i].IsAtom()
  }

  predicate WellFormedArg(arg: Arg)
  {
    match arg
    case AtomArg(atom) => atom.IsAtom()
    case ItemsArg(items) => WellFormedItems(items)
  }

  /** The shapes that the grammar gives trees: no empty disjunction or conjunction, atoms where atoms belong. */
  predicate WellFormedTerm(t: Term)
    decreases t, 0
  {
    match t
    case Variable(_) => true
    case Not(u) => WellFormedTerm(u)
    case Unary(a) => a.IsAtom()
    case Binary(l, op, r) => l.IsAtom() && op.IsComparison() && r.IsAtom()
    case Member(l, op, args) =>
      l.IsAtom() && op.IsMembership() && |args| >= 1 && forall i :: 0 <= i < |args| ==> WellFormedArg(args[i])
    case Paren(e) => WellFormedConjs(e.disjuncts)
  }

  predicate WellFormedTerms(terms: seq<Term>)
    decreases terms, 1
  {
    |terms| >= 1 && forall i :: 0 <= i < |terms| ==> WellFormedTerm(terms[i])
  }

  predicate WellFormedConjs(conjs: seq<Conj>)
    decreases conjs, 2
  {
    |conjs| >= 1 && forall i :: 0 <= i < |conjs| ==> WellFormedTerms(conjs[i].terms)
  }

  predicate WellFormed(e: Expr)
  {
    WellFormedConjs(e.disjuncts)
  }

  // The tokens of a phrase, followed by the tokens `rest`.

  function RenderAtoms(atoms: seq<Token>, rest: seq<Token>): seq<Token>
  {
    if |atoms| == 0 then rest
    else if |atoms| == 1 then [atoms[0]] + rest
    else [atoms[0], SEP] + RenderAtoms(atoms[1..], rest)
  }

  function RenderItems(items: Items, rest: seq<Token>): seq<Token>
  {
    [LBRACK] + RenderAtoms(items.atoms, if items.trailing then [SEP, RBRACK] + rest else [RBRACK] + rest)
  }

  function RenderArg(arg: Arg, rest: seq<Token>): seq<Token>
  {
    match arg
    case AtomArg(atom) => [atom] + rest
    case ItemsArg(items) => RenderItems(items, rest)
  }

  function RenderArgs(args: seq<Arg>, rest: seq<Token>): seq<Token>
  {
    if |args| == 0 then rest
    else if |args| == 1 then RenderArg(args[0], rest)
    else RenderArg(args[0], [SEP] + RenderArgs(args[1..], rest))
  }

  function RenderTerm(t: Term, rest: seq<Token>): seq<Token>
    decreases t, 0
  {
    match t
    case Variable(name) => [Word(ID, name)] + rest
    case Not(u) => [NOT] + RenderTerm(u, rest)
    case Unary(a) => [a, EXISTS] + rest
    case Binary(l, op, r) => [l, op, r] + rest
    case Member(l, op, args) => [l, op, LPAREN] + RenderArgs(args, [RPAREN] + rest)
    case Paren(e) => [LPAREN] + RenderConjs(e.disjuncts, [RPAREN] + rest)
  }

  function RenderTerms(terms: seq<Term>, rest: seq<Token>): seq<Token>
    decreases terms, 1
  {
    if |terms| == 0 then rest
    else if |terms| == 1 then RenderTerm(terms[0], rest)
    else RenderTerm(terms[0], [AND] + RenderTerms(terms[1..], rest))
  }

  function RenderConjs(conjs: seq<Conj>, rest: seq<Token>): seq<Token>
    decreases conjs, 2
  {
    if |conjs| == 0 then rest
    else if |conjs| == 1 then RenderTerms(conjs[0].terms, rest)
    else RenderTerms(conjs[0].terms, [OR] + RenderConjs(conjs[1..], rest))
  }

  function Render(e: Expr, rest: seq<Token>): seq<Token>
  {
    RenderConjs(e.disjuncts, rest)
  }
}
