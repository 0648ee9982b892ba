/**
 Attribute lookup and the predicate combinators that policies compile to.

 A criterion reads only the flat record, never the context that rules and actions write to.
 */
module Predicates {
  import opened Text

  /** One telemetry record, by attribute index. */
  datatype FlatRecord = FlatRecord(ints: map<nat, int>, strs: map<nat, string>)

  /** What an attribute mapper returns. `Ref` stands for array attributes, of which only nil-ness is visible here. */
  datatype Value = Str(s: string) | Int64(n: int) | Int32(m: int) | Bool(b: bool) | Ref(isNil: bool)

  const SF_TYPE := "sf.type"
  const SF_PROC_TTY := "sf.proc.tty"
  const SF_PROC_ENTRY := "sf.proc.entry"

  /**
   The attribute mappers, by name. `jsonGet` and `lower` stand for the JSON path
   lookup and Unicode lower-casing, which are library code.
   */
  datatype FieldMapper = FieldMapper(
    mappers: map<string, FlatRecord -> Value>,
    jsonGet: (string, string) -> string,
    lower: string -> string)
  {
    /** An unmapped name stands for itself. */
    function Map(attr: string, r: FlatRecord): Value
    {
      if attr in mappers then mappers[attr](r) else Str(attr)
    }

    function MapInt(attr: string, r: FlatRecord): int
    {
      match Map(attr, r)
      case Int64(n) => n
      case _ =>
        match ParseInt64(attr)
        case Some(n) => n
        case None => 0
    }

    function MapStr(attr: string, r: FlatRecord): string
    {
      var k := IndexOf(attr, '[');
      var isPath := k < |attr| && attr[..k] in mappers;
      var base := if k < |attr| then attr[..k] else attr;
      var path := if isPath && k + 1 < |attr| then attr[k + 1..|attr| - 1] else "";
      match Map(base, r)
      case Str(v) =>
        if isPath && v != "" && path != "" then jsonGet(v, path) else TrimBoundingQuotes(v)
      case Int64(n) =>
        if base == SF_PROC_TTY || base == SF_PROC_ENTRY then FormatBool(n != 0) else FormatInt(n)
      case Int32(m) => FormatInt(m)
      case Bool(b) => FormatBool(b)
      case Ref(_) => ""
    }

    /** Whether the mapped value differs from its type's zero value. */
    predicate IsSet(attr: string, r: FlatRecord)
    {
      match Map(attr, r)
      case Str(s) => s != ""
      case Int64(n) => n != 0
      case Int32(m) => m != 0
      case Bool(b) => b
      case Ref(isNil) => !isNil
    }
  }

  function FormatBool(b: bool): string
  {
    if b then "true" else "false"
  }

  datatype Operator = EqOp | ContainsOp | IContainsOp | StartsWithOp | EndsWithOp

  predicate Apply(fm: FieldMapper, op: Operator, l: string, r: string)
  {
    match op
    case EqOp => l == r
    case ContainsOp => Contains(l, r)
    case IContainsOp => Contains(fm.lower(l), fm.lower(r))
    case StartsWithOp => HasPrefix(l, r)
    case EndsWithOp => HasSuffix(l, r)
  }

  /** Some comma-separated part on the left is related to some part on the right. */
  predicate Matches(fm: FieldMapper, op: Operator, l: string, r: string)
  {
    exists i, j | 0 <= i < |Split(l, LISTSEP)| && 0 <= j < |Split(r, LISTSEP)| ::
      Apply(fm, op, Split(l, LISTSEP)[i], Split(r, LISTSEP)[j])
  }

  /** `eval`: the nested loop with an early return. */
  method Eval(fm: FieldMapper, l: string, r: string, op: Operator) returns (found: bool)
    ensures found == Matches(fm, op, l, r)
  {
    var lattrs := Split(l, LISTSEP);
    var rattrs := Split(r, LISTSEP);
    for i := 0 to |lattrs|
      invariant forall a, b :: 0 <= a < i && 0 <= b < |rattrs| ==> !Apply(fm, op, lattrs[a], rattrs[b])
    {
      for j := 0 to |rattrs|
        invariant forall b :: 0 <= b < j ==> !Apply(fm, op, lattrs[i], rattrs[b])
      {
        if Apply(fm, op, lattrs[i], rattrs[j]) {
          return true;
        }
      }
    }
    return false;
  }

  /** Some element of the list is related to the left operand. */
  predicate MatchesAny(fm: FieldMapper, op: Operator, l: string, list: seq<string>)
  {
    exists i | 0 <= i < |list| :: Matches(fm, op, l, list[i])
  }

  /** The loop shared by `In` and `PMatch`. */
  method EvalAny(fm: FieldMapper, l: string, list: seq<string>, op: Operator) returns (found: bool)
    ensures found == MatchesAny(fm, op, l, list)
  {
    for k := 0 to |list|
      invariant forall i :: 0 <= i < k ==> !Matches(fm, op, l, list[i])
    {
      found := Eval(fm, l, list[k], op);
      if found {
        return;
      }
    }
    return false;
  }

  /** A list operand behaves exactly like one operand holding the joined list, for every operator. */
  lemma ListIsJoinedOperand(fm: FieldMapper, op: Operator, l: string, list: seq<string>)
    requires |list| >= 1
    ensures MatchesAny(fm, op, l, list) <==> Matches(fm, op, l, Join(list, LISTSEP))
  {
    if k :| 0 <= k < |list| && Matches(fm, op, l, list[k]) {
      MatchesPart(fm, op, l, list[k]);
      var x :| x in Split(list[k], LISTSEP) && MatchesOne(fm, op, l, x);
      JoinedParts(list, x);
      MatchesPart(fm, op, l, Join(list, LISTSEP));
    }
    if Matches(fm, op, l, Join(list, LISTSEP)) {
      MatchesPart(fm, op, l, Join(list, LISTSEP));
      var x :| x in Split(Join(list, LISTSEP), LISTSEP) && MatchesOne(fm, op, l, x);
      JoinedParts(list, x);
      var k :| 0 <= k < |list| && x in Split(list[k], LISTSEP);
      MatchesPart(fm, op, l, list[k]);
      assert Matches(fm, op, l, list[k]);
    }
  }

  /** Some part of the left operand is related to `x`. */
  predicate MatchesOne(fm: FieldMapper, op: Operator, l: string, x: string)
  {
    exists i | 0 <= i < |Split(l, LISTSEP)| :: Apply(fm, op, Split(l, LISTSEP)[i], x)
  }

  lemma MatchesPart(fm: FieldMapper, op: Operator, l: string, r: string)
    ensures Matches(fm, op, l, r) <==> exists x :: x in Split(r, LISTSEP) && MatchesOne(fm, op, l, x)
  {
    var ls, rs := Split(l, LISTSEP), Split(r, LISTSEP);
    if Matches(fm, op, l, r) {
      var i, j :| 0 <= i < |ls| && 0 <= j < |rs| && Apply(fm, op, ls[i], rs[j]);
      assert rs[j] in rs && MatchesOne(fm, op, l, rs[j]);
    }
    if x :| x in rs && MatchesOne(fm, op, l, x) {
      var j :| 0 <= j < |rs| && rs[j] == x;
      var i :| 0 <= i < |ls| && Apply(fm, op, ls[i], x);
      assert Apply(fm, op, ls[i], rs[j]);
    }
  }

  /** The parts of a joined list are the parts of its elements. */
  lemma JoinedParts(list: seq<string>, x: string)
    requires |list| >= 1
    ensures x in Split(Join(list, LISTSEP), LISTSEP) <==> exists k :: 0 <= k < |list| && x in Split(list[k], LISTSEP)
  {
    var split := seq(|list|, i requires 0 <= i < |list| => Split(list[i], LISTSEP));
    SplitJoin(list, LISTSEP);
    FlattenMember(split, x);
    if k :| 0 <= k < |list| && x in Split(list[k], LISTSEP) {
      assert x in split[k];
    }
  }

  datatype Criterion = Criterion(pred: FlatRecord -> bool)
  {
    function And(c: Criterion): Criterion
    {
      Criterion(r => pred(r) && c.pred(r))
    }

    function Or(c: Criterion): Criterion
    {
      Criterion(r => pred(r) || c.pred(r))
    }

    function Negate(): Criterion
    {
      Criterion(r => !pred(r))
    }
  }

  const TRUE := Criterion(r => true)
  const FALSE := Criterion(r => false)

  /** `All`: a chain of conjunctions is one conjunction over the whole slice. */
  method All(criteria: seq<Criterion>) returns (all: Criterion)
    ensures forall r :: all.pred(r) <==> forall i :: 0 <= i < |criteria| ==> criteria[i].pred(r)
  {
    all := TRUE;
    for k := 0 to |criteria|
      invariant forall r :: all.pred(r) <==> forall i :: 0 <= i < k ==> criteria[i].pred(r)
    {
      ghost var before := all;
      all := all.And(criteria[k]);
      assert forall r :: all.pred(r) <==> before.pred(r) && criteria[k].pred(r);
    }
  }

  /** `Any`: a chain of disjunctions is one disjunction over the whole slice. */
  method Any(criteria: seq<Criterion>) returns (any: Criterion)
    ensures forall r :: any.pred(r) <==> exists i :: 0 <= i < |criteria| && criteria[i].pred(r)
  {
    any := FALSE;
    for k := 0 to |criteria|
      invariant forall r :: any.pred(r) <==> exists i :: 0 <= i < k && criteria[i].pred(r)
    {
      ghost var before := any;
      any := any.Or(criteria[k]);
      assert forall r :: any.pred(r) <==> before.pred(r) || criteria[k].pred(r);
    }
  }

  function Exists(fm: FieldMapper, attr: string): Criterion
  {
    Criterion(r => fm.IsSet(attr, r))
  }

  function Relation(fm: FieldMapper, op: Operator, l: string, r: string): Criterion
  {
    Criterion(rec => Matches(fm, op, fm.MapStr(l, rec), fm.MapStr(r, rec)))
  }

  function Eq(fm: FieldMapper, l: string, r: string): Criterion
  {
    Relation(fm, EqOp, l, r)
  }

  function NEq(fm: FieldMapper, l: string, r: string): Criterion
  {
    Eq(fm, l, r).Negate()
  }

  function Ge(fm: FieldMapper, l: string, r: string): Criterion
  {
    Criterion(rec => fm.MapInt(l, rec) >= fm.MapInt(r, rec))
  }

  function Gt(fm: FieldMapper, l: string, r: string): Criterion
  {
    Criterion(rec => fm.MapInt(l, rec) > fm.MapInt(r, rec))
  }

  function Le(fm: FieldMapper, l: string, r: string): Criterion
  {
    Gt(fm, l, r).Negate()
  }

  function Lt(fm: FieldMapper, l: string, r: string): Criterion
  {
    Ge(fm, l, r).Negate()
  }

  function In(fm: FieldMapper, attr: string, list: seq<string>): Criterion
  {
    Criterion(rec => MatchesAny(fm, EqOp, fm.MapStr(attr, rec), list))
  }

  function PMatch(fm: FieldMapper, attr: string, list: seq<string>): Criterion
  {
    Criterion(rec => MatchesAny(fm, ContainsOp, fm.MapStr(attr, rec), list))
  }
}
