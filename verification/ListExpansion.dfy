/** Named lists whose items may name further lists, and their expansion. */
module ListExpansion {
  import opened Text
  import opened Sets
  import opened SfplSyntax

  type Lists = map<string, seq<string>>

  // ------------------------------------------------------------------
  // From the text of `[a, b, ...]` to a list of strings.

  function LastIndexOf(s: string, c: char): (k: int)
    ensures -1 <= k < |s|
    ensures k >= 0 ==> s[k] == c
    ensures forall j :: k < j < |s| ==> s[j] != c
  {
    if s == "" then -1
    else if s[|s| - 1] == c then |s| - 1
    else LastIndexOf(s[..|s| - 1], c)
  }

  /** The regular expression that removes a leading bracket and the last closing one. */
  function StripBrackets(s: string): string
  {
    var k := LastIndexOf(s, ']');
    if s != "" && s[0] == '[' && k > 0 then s[1..k] + s[k + 1..] else s
  }

  function TrimAll(parts: seq<string>): (r: seq<string>)
    ensures |r| == |parts|
  {
    seq(|parts|, i requires 0 <= i < |parts| => TrimBoundingQuotes(parts[i]))
  }

  method ExtractListLoop(str: string) returns (items: seq<string>)
    ensures items == ExtractList(str)
  {
    items := [];
    var parts := Split(StripBrackets(str), LISTSEP);
    for k := 0 to |parts|
      invariant items == TrimAll(parts)[..k]
    {
      items := items + [TrimBoundingQuotes(parts[k])];
    }
  }

  function ExtractList(str: string): seq<string>
  {
    TrimAll(Split(StripBrackets(str), LISTSEP))
  }

  function Texts(atoms: seq<Token>): seq<string>
  {
    seq(|atoms|, i requires 0 <= i < |atoms| => atoms[i].Text())
  }

  /** The concatenated text of the tokens of an item list. */
  function ItemsText(items: Items): string
  {
    "[" + Join(Texts(items.atoms), LISTSEP) + (if items.trailing then "," else "") + "]"
  }

  function ExtractItems(items: Items): seq<string>
  {
    ExtractList(ItemsText(items))
  }

  /**
   What a declared list holds: every item, cut at its own commas and unquoted;
   plus one empty string for a trailing comma, and one for the empty list.
   */
  lemma ExtractItemsSplits(items: Items)
    ensures ExtractItems(items) ==
            TrimAll((if items.atoms == [] then [""]
                     else Flatten(seq(|items.atoms|, i requires 0 <= i < |items.atoms| =>
                                        Split(items.atoms[i].Text(), LISTSEP))))
                    + (if items.trailing then [""] else []))
  {
    var texts := Texts(items.atoms);
    var joined := Join(texts, LISTSEP);
    var inner := joined + (if items.trailing then "," else "");
    var text := ItemsText(items);
    assert text == "[" + inner + "]";
    assert text[|text| - 1] == ']' && text[1..|text| - 1] == inner && text[|text|..] == "";
    assert StripBrackets(text) == inner;
    if items.trailing {
      assert inner == joined + [LISTSEP] + "";
      SplitAround(joined, "", LISTSEP);
      assert Split("", LISTSEP) == [""];
    } else {
      assert inner == joined;
    }
    if items.atoms == [] {
      assert joined == "";
    } else {
      SplitJoin(texts, LISTSEP);
      assert seq(|texts|, i requires 0 <= i < |texts| => Split(texts[i], LISTSEP))
          == seq(|items.atoms|, i requires 0 <= i < |items.atoms| => Split(items.atoms[i].Text(), LISTSEP));
    }
    assert Split(inner, LISTSEP) + [] == Split(inner, LISTSEP);
  }

  // ------------------------------------------------------------------
  // Expansion.

  /** Expanding `name` nests at most `n` lists deep. */
  predicate Grounded(lists: Lists, name: string, n: nat)
    decreases n
  {
    name !in lists || (n > 0 && forall v :: v in lists[name] ==> Grounded(lists, v, n - 1))
  }

  /** Expansion ends: the source recurses without a bound, so this is what it demands. */
  ghost predicate Finite(lists: Lists, name: string)
  {
    exists n: nat :: Grounded(lists, name, n)
  }

  lemma {:induction false} GroundedMonotone(lists: Lists, name: string, n: nat, m: nat)
    requires n <= m && Grounded(lists, name, n)
    ensures Grounded(lists, name, m)
    decreases n
  {
    if name in lists {
      forall v | v in lists[name] ensures Grounded(lists, v, m - 1) {
        GroundedMonotone(lists, v, n - 1, m - 1);
      }
    }
  }

  /** The lists whose expansion nests at most `k` deep. */
  function Settled(lists: Lists, k: nat): set<string>
  {
    set x | x in lists && Grounded(lists, x, k)
  }

  lemma SettledGrows(lists: Lists, k: nat)
    ensures Settled(lists, k) <= Settled(lists, k + 1)
  {
    forall x | x in Settled(lists, k) ensures x in Settled(lists, k + 1) {
      GroundedMonotone(lists, x, k, k + 1);
    }
  }

  /** One level more depends on what the level before has settled. */
  lemma GroundedBySettled(lists: Lists, name: string, k: nat)
    ensures Grounded(lists, name, k + 1) <==>
            name !in lists || forall v :: v in lists[name] ==> v !in lists || v in Settled(lists, k)
  {
    if name in lists {
      forall v | v in lists[name] ensures Grounded(lists, v, k) <==> v !in lists || v in Settled(lists, k) {
      }
    }
  }

  /** Once a level settles no new list, no later level does. */
  lemma {:induction false} SettledStays(lists: Lists, k: nat, j: nat)
    requires k <= j && Settled(lists, k) == Settled(lists, k + 1)
    ensures Settled(lists, j) == Settled(lists, k)
    decreases j - k
  {
    if k < j {
      forall x | x in lists ensures x in Settled(lists, k + 1) <==> x in Settled(lists, k + 2) {
        GroundedBySettled(lists, x, k);
        GroundedBySettled(lists, x, k + 1);
      }
      SettledStays(lists, k + 1, j);
    }
  }

  /** Every level settles a further list, until none does. */
  lemma {:induction false} SettledCounts(lists: Lists, k: nat)
    ensures |Settled(lists, k)| >= k || Settled(lists, k) == Settled(lists, k + 1)
  {
    if k > 0 {
      SettledCounts(lists, k - 1);
      SettledGrows(lists, k - 1);
      if Settled(lists, k - 1) == Settled(lists, k) {
        SettledStays(lists, k - 1, k + 1);
      } else {
        SubsetSize(Settled(lists, k - 1), Settled(lists, k));
      }
    }
  }

  /** The expansion of a name ends if and only if it nests at most as deep as there are lists. */
  lemma FiniteIsDecidable(lists: Lists, name: string)
    ensures Finite(lists, name) <==> Grounded(lists, name, |lists|)
  {
    if n: nat :| Grounded(lists, name, n) {
      var size := |lists|;
      if n <= size {
        GroundedMonotone(lists, name, n, size);
      } else if name in lists {
        SettledCounts(lists, size);
        if |Settled(lists, size)| >= size {
          assert Settled(lists, size) <= lists.Keys;
          SubsetSize(Settled(lists, size), lists.Keys);
        } else {
          SettledStays(lists, size, n);
          assert name in Settled(lists, n);
        }
      }
    }
  }

  /** `reduceList`: the members of a list in order, nested lists replaced by theirs, anything else unquoted. */
  ghost function Reduced(lists: Lists, name: string, n: nat): seq<string>
    requires Grounded(lists, name, n)
    decreases n, 0
  {
    if name in lists then ReducedAll(lists, lists[name], n - 1) else [TrimBoundingQuotes(name)]
  }

  ghost function ReducedAll(lists: Lists, names: seq<string>, n: nat): seq<string>
    requires forall v :: v in names ==> Grounded(lists, v, n)
    decreases n, |names| + 1
  {
    if names == [] then []
    else
      var last := names[|names| - 1];
      assert last in names;
      ReducedAll(lists, names[..|names| - 1], n) + Reduced(lists, last, n)
  }

  lemma {:induction false} ReducedStable(lists: Lists, name: string, n: nat, m: nat)
    requires Grounded(lists, name, n) && Grounded(lists, name, m)
    ensures Reduced(lists, name, n) == Reduced(lists, name, m)
    decreases n, 0
  {
    if name in lists {
      ReducedAllStable(lists, lists[name], n - 1, m - 1);
    }
  }

  lemma {:induction false} ReducedAllStable(lists: Lists, names: seq<string>, n: nat, m: nat)
    requires forall v :: v in names ==> Grounded(lists, v, n) && Grounded(lists, v, m)
    ensures ReducedAll(lists, names, n) == ReducedAll(lists, names, m)
    decreases n, |names| + 1
  {
    if names != [] {
      var last := names[|names| - 1];
      assert last in names;
      ReducedAllStable(lists, names[..|names| - 1], n, m);
      ReducedStable(lists, last, n, m);
    }
  }

  /** A way down through nested lists from `path[0]` to something that is not a list. */
  ghost predicate LeafPath(lists: Lists, path: seq<string>)
  {
    |path| >= 1 &&
    if |path| == 1 then path[0] !in lists
    else path[0] in lists && path[1] in lists[path[0]] && LeafPath(lists, path[1..])
  }

  /** `x` is the unquoted end of some way down from `name`. */
  ghost predicate IsLeaf(lists: Lists, name: string, x: string)
  {
    exists path :: LeafPath(lists, path) && path[0] == name && x == TrimBoundingQuotes(path[|path| - 1])
  }

  lemma LeafBelow(lists: Lists, name: string, v: string, x: string)
    requires name in lists && v in lists[name] && IsLeaf(lists, v, x)
    ensures IsLeaf(lists, name, x)
  {
    var path :| LeafPath(lists, path) && path[0] == v && x == TrimBoundingQuotes(path[|path| - 1]);
    var longer := [name] + path;
    assert longer[1..] == path && longer[|longer| - 1] == path[|path| - 1];
    assert LeafPath(lists, longer);
  }

  lemma LeafStep(lists: Lists, name: string, x: string)
    ensures IsLeaf(lists, name, x) <==>
            if name in lists then exists v :: v in lists[name] && IsLeaf(lists, v, x)
            else x == TrimBoundingQuotes(name)
  {
    if name in lists {
      if v :| v in lists[name] && IsLeaf(lists, v, x) {
        LeafBelow(lists, name, v, x);
      }
      if IsLeaf(lists, name, x) {
        var path :| LeafPath(lists, path) && path[0] == name && x == TrimBoundingQuotes(path[|path| - 1]);
        assert LeafPath(lists, path[1..]);
        assert IsLeaf(lists, path[1], x);
      }
    } else {
      assert LeafPath(lists, [name]);
      assert [name][0] == name;
    }
  }

  /** Expansion yields exactly the leaves reachable through nested lists. */
  lemma {:induction false} ReducedAreLeaves(lists: Lists, name: string, n: nat, x: string)
    requires Grounded(lists, name, n)
    ensures x in Reduced(lists, name, n) <==> IsLeaf(lists, name, x)
    decreases n, 0
  {
    LeafStep(lists, name, x);
    if name in lists {
      ReducedAllAreLeaves(lists, lists[name], n - 1, x);
    }
  }

  lemma {:induction false} ReducedAllAreLeaves(lists: Lists, names: seq<string>, n: nat, x: string)
    requires forall v :: v in names ==> Grounded(lists, v, n)
    ensures x in ReducedAll(lists, names, n) <==> exists v :: v in names && IsLeaf(lists, v, x)
    decreases n, |names| + 1
  {
    if names != [] {
      var init, last := names[..|names| - 1], names[|names| - 1];
      assert names == init + [last];
      ReducedAllAreLeaves(lists, init, n, x);
      assert last in names;
      ReducedAreLeaves(lists, last, n, x);
    }
  }
}
