/** Collection of source locators from recorded tool results. */
module SourceLocators {
  import opened Basics
  import opened Json
  import Utf8

  const MAXIMUM_INSPECTED: nat := 4_096
  const MAXIMUM_LOCATOR_BYTES: nat := 4_096
  const SCHEMES: set<string> := {"workspace", "skill", "search", "http", "https", "mcp", "delegation"}

  /** What precedes and follows the first occurrence of `separator`. */
  function SplitOnce(s: string, separator: string): (r: Option<(string, string)>)
    ensures r.Some? ==> s == r.value.0 + separator + r.value.1
    ensures r.None? ==> forall i :: 0 <= i <= |s| ==> !(separator <= s[i..])
  {
    if separator <= s then
      Some(("", s[|separator|..]))
    else if s == "" then
      None
    else
      var rest := SplitOnce(s[1..], separator);
      SuffixOfTail(s);
      if rest.Some? then
        assert s == [s[0]] + s[1..];
        Some(([s[0]] + rest.value.0, rest.value.1))
      else
        None
  }

  lemma SuffixOfTail(s: string)
    requires s != ""
    ensures forall i :: 0 < i <= |s| ==> s[i..] == s[1..][i - 1..]
  {
  }

  /** The split is at the first occurrence. */
  lemma {:induction false} SplitsAtFirst(s: string, separator: string, i: nat)
    requires SplitOnce(s, separator).Some? && i < |SplitOnce(s, separator).value.0|
    ensures i <= |s| && !(separator <= s[i..])
    decreases |s|
  {
    if i > 0 {
      SplitsAtFirst(s[1..], separator, i - 1);
      assert s[i..] == s[1..][i - 1..];
    }
  }

  function Candidate(content: string): string {
    if "recorded artifact " <= content then
      match SplitOnce(content, "\n\n")
      case Some((_, body)) => body
      case None => content
    else content
  }

  predicate ValidLocator(s: string) {
    && Utf8.Len(s) <= MAXIMUM_LOCATOR_BYTES
    && (forall i :: 0 <= i < |s| ==> !IsControl(s[i]))
    && var split := SplitOnce(s, ":");
       split.Some? && split.value.0 in SCHEMES
  }

  function Values(members: seq<Member>): seq<Json> {
    if members == [] then [] else [members[0].value] + Values(members[1..])
  }

  function Children(j: Json): seq<Json> {
    match j
    case Array(items) => items
    case Object(members) => Values(members)
    case _ => []
  }

  /** The locator a value itself carries. */
  function Own(j: Json): set<string> {
    var locator := AsStr(Get(j, "sourceLocator"));
    if locator.Some? && ValidLocator(locator.value) then {locator.value} else {}
  }

  // ----- Size: the number of values in a tree -------------------------------------------------------

  function Size(j: Json): nat
    decreases j
  {
    match j
    case Array(items) => 1 + SizeOfItems(items)
    case Object(members) => 1 + SizeOfMembers(members)
    case _ => 1
  }

  function SizeOfItems(items: seq<Json>): nat
    decreases items
  {
    if items == [] then 0 else Size(items[0]) + SizeOfItems(items[1..])
  }

  function SizeOfMembers(members: seq<Member>): nat
    decreases members
  {
    if members == [] then 0 else Size(members[0].value) + SizeOfMembers(members[1..])
  }

  lemma {:induction false} SizeOfValues(members: seq<Member>)
    ensures SizeOfItems(Values(members)) == SizeOfMembers(members)
  {
    if members != [] {
      SizeOfValues(members[1..]);
      assert Values(members)[1..] == Values(members[1..]);
    }
  }

  lemma SizeOfChildren(j: Json)
    ensures Size(j) == 1 + SizeOfItems(Children(j))
  {
    if j.Object? {
      SizeOfValues(j.members);
    }
  }

  lemma {:induction false} SizeAppend(a: seq<Json>, b: seq<Json>)
    ensures SizeOfItems(a + b) == SizeOfItems(a) + SizeOfItems(b)
  {
    if a == [] {
      assert a + b == b;
    } else {
      assert (a + b)[1..] == a[1..] + b;
      SizeAppend(a[1..], b);
    }
  }

  lemma SizeSnoc(items: seq<Json>, j: Json)
    ensures SizeOfItems(items + [j]) == SizeOfItems(items) + Size(j)
  {
    SizeAppend(items, [j]);
    assert [j][1..] == [];
  }

  // ----- The order of the walk ------------------------------------------------------------------------

  /** The values a stack yields, last pushed first, each followed by everything below it. */
  function Walk(stack: seq<Json>): (r: seq<Json>)
    decreases SizeOfItems(stack), |stack|
  {
    if stack == [] then [] else
    var top, rest := stack[|stack| - 1], stack[..|stack| - 1];
    StackShrinks(stack);
    [top] + Walk(rest + Children(top))
  }

  lemma StackShrinks(stack: seq<Json>)
    requires stack != []
    ensures var top, rest := stack[|stack| - 1], stack[..|stack| - 1];
            SizeOfItems(rest + Children(top)) + 1 == SizeOfItems(stack)
  {
    var top, rest := stack[|stack| - 1], stack[..|stack| - 1];
    assert stack == rest + [top];
    SizeSnoc(rest, top);
    SizeOfChildren(top);
    SizeAppend(rest, Children(top));
  }

  function Locators(values: seq<Json>): set<string> {
    if values == [] then {} else Locators(values[..|values| - 1]) + Own(values[|values| - 1])
  }

  /** The loop over the pending stack: the locators of the first 4096 values of the walk. */
  method CollectSourceLocators(content: string, parse: string -> Option<Json>, output: set<string>)
    returns (result: set<string>)
    ensures match parse(Candidate(content))
            case None => result == output
            case Some(value) =>
              result == output + Found(value)
  {
    hide Walk, Locators, SizeOfItems, Own, SplitOnce;
    var parsed := parse(Candidate(content));
    result := output;
    if parsed == None {
      return;
    }
    var pending := [parsed.value];
    var inspected := 0;
    ghost var order := Walk(pending);
    LocatorsEmpty();
    while pending != []
      invariant inspected <= MAXIMUM_INSPECTED
      invariant inspected <= |order| && Walk(pending) == order[inspected..]
      invariant result == output + Locators(order[..inspected])
      decreases SizeOfItems(pending)
    {
      if inspected >= MAXIMUM_INSPECTED {
        break;
      }
      WalkTop(pending);
      StackShrinks(pending);
      var value := pending[|pending| - 1];
      pending := pending[..|pending| - 1];
      assert order[inspected..][0] == order[inspected] == value;
      assert order[inspected..][1..] == order[inspected + 1..];
      LocatorsNext(order, inspected);
      inspected := inspected + 1;
      result := result + Own(value);
      pending := pending + Children(value);
    }
    if pending == [] {
      WalkEmpty();
    }
  }

  lemma WalkTop(stack: seq<Json>)
    requires stack != []
    ensures Walk(stack) == [stack[|stack| - 1]] + Walk(stack[..|stack| - 1] + Children(stack[|stack| - 1]))
  {
  }

  lemma WalkEmpty()
    ensures Walk([]) == []
  {
  }

  lemma LocatorsEmpty()
    ensures forall values: seq<Json> :: values == [] ==> Locators(values) == {}
  {
  }

  lemma LocatorsNext(values: seq<Json>, n: nat)
    requires n < |values|
    ensures Locators(values[..n + 1]) == Locators(values[..n]) + Own(values[n])
  {
    hide Own;
    assert values[..n + 1][..n] == values[..n];
  }

  // ----- What it finds ----------------------------------------------------------------------------------

  /** The locators anywhere in a value. */
  function AllLocators(j: Json): set<string>
    decreases Size(j), 0
  {
    SizeOfChildren(j);
    Own(j) + LocatorsIn(Children(j))
  }

  function LocatorsIn(items: seq<Json>): set<string>
    decreases SizeOfItems(items), |items|
  {
    if items == [] then {} else
    SizeOfFirst(items);
    AllLocators(items[0]) + LocatorsIn(items[1..])
  }

  lemma SizeOfFirst(items: seq<Json>)
    requires items != []
    ensures SizeOfItems(items) == Size(items[0]) + SizeOfItems(items[1..])
    ensures Size(items[0]) > 0
  {
  }

  lemma {:induction false} LocatorsInAppend(a: seq<Json>, b: seq<Json>)
    ensures LocatorsIn(a + b) == LocatorsIn(a) + LocatorsIn(b)
    decreases |a|
  {
    hide AllLocators, SizeOfItems;
    if a == [] {
      assert a + b == b;
    } else {
      assert (a + b)[1..] == a[1..] + b;
      LocatorsInAppend(a[1..], b);
    }
  }

  lemma LocatorsInOne(j: Json)
    ensures LocatorsIn([j]) == AllLocators(j)
  {
  }

  lemma {:induction false} LocatorsAppend(a: seq<Json>, b: seq<Json>)
    ensures Locators(a + b) == Locators(a) + Locators(b)
    decreases |b|
  {
    hide Own;
    if b == [] {
      assert a + b == a;
    } else {
      var n := |b| - 1;
      assert (a + b)[..|a| + n] == a + b[..n];
      LocatorsAppend(a, b[..n]);
    }
  }

  /** The walk visits every value once and so finds every locator. */
  lemma {:induction false} WalkFindsAll(stack: seq<Json>)
    ensures |Walk(stack)| == SizeOfItems(stack)
    ensures Locators(Walk(stack)) == LocatorsIn(stack)
    decreases SizeOfItems(stack)
  {
    hide Own, Walk, Locators, LocatorsIn, SizeOfItems;
    if stack == [] {
      WalkNothing();
    } else {
      var top, rest := stack[|stack| - 1], stack[..|stack| - 1];
      assert stack == rest + [top];
      StackShrinks(stack);
      WalkTop(stack);
      WalkFindsAll(rest + Children(top));
      LocatorsAppend([top], Walk(rest + Children(top)));
      LocatorsOfOne(top);
      LocatorsInAppend(rest, Children(top));
      LocatorsInAppend(rest, [top]);
      LocatorsInOne(top);
    }
  }

  lemma WalkNothing()
    ensures Walk([]) == [] && SizeOfItems([]) == 0 && Locators([]) == {} && LocatorsIn([]) == {}
  {
  }

  lemma LocatorsOfOne(j: Json)
    ensures Locators([j]) == Own(j)
  {
  }

  // ----- Where the walk meets a value -------------------------------------------------------------------

  /** A value inside another, named by the child to take at each level. */
  predicate IsPath(j: Json, path: seq<nat>)
    decreases |path|
  {
    path == [] || (path[0] < |Children(j)| && IsPath(Children(j)[path[0]], path[1..]))
  }

  function At(j: Json, path: seq<nat>): Json
    requires IsPath(j, path)
    decreases |path|
  {
    if path == [] then j else At(Children(j)[path[0]], path[1..])
  }

  /** How many values the walk meets before this one: all its ancestors, and everything in the later
      siblings of each value on its path. */
  function Rank(j: Json, path: seq<nat>): nat
    requires IsPath(j, path)
    decreases |path|
  {
    if path == [] then 0
    else 1 + SizeOfItems(Children(j)[path[0] + 1..]) + Rank(Children(j)[path[0]], path[1..])
  }

  /** The top of the stack is walked before what lies below it. */
  lemma {:induction false} WalkConcat(a: seq<Json>, b: seq<Json>)
    ensures Walk(a + b) == Walk(b) + Walk(a)
    decreases SizeOfItems(b)
  {
    hide Walk, SizeOfItems, Children;
    if b == [] {
      assert a + b == a;
      WalkNothing();
      assert [] + Walk(a) == Walk(a);
    } else {
      var top, rest := b[|b| - 1], b[..|b| - 1];
      var stack := a + b;
      WalkTop(stack);
      WalkTop(b);
      StackShrinks(b);
      assert stack[..|stack| - 1] + Children(top) == a + (rest + Children(top));
      WalkConcat(a, rest + Children(top));
      assert [top] + (Walk(rest + Children(top)) + Walk(a)) == ([top] + Walk(rest + Children(top))) + Walk(a);
    }
  }

  /** The walk of a value's children, around one of them. */
  lemma WalkAround(items: seq<Json>, i: nat)
    requires i < |items|
    ensures Walk(items) == Walk(items[i + 1..]) + Walk([items[i]]) + Walk(items[..i])
    ensures |Walk(items[i + 1..])| == SizeOfItems(items[i + 1..])
  {
    hide Walk, SizeOfItems;
    assert items == items[..i + 1] + items[i + 1..];
    assert items[..i + 1] == items[..i] + [items[i]];
    WalkConcat(items[..i + 1], items[i + 1..]);
    WalkConcat(items[..i], [items[i]]);
    WalkFindsAll(items[i + 1..]);
    assert Walk(items[i + 1..]) + (Walk([items[i]]) + Walk(items[..i]))
        == Walk(items[i + 1..]) + Walk([items[i]]) + Walk(items[..i]);
  }

  lemma WalkOne(j: Json)
    ensures Walk([j]) == [j] + Walk(Children(j))
  {
    hide Walk, Children;
    WalkTop([j]);
    assert [j][..0] + Children(j) == Children(j);
  }

  /** A value is met at its rank. */
  lemma {:induction false} MetAtRank(j: Json, path: seq<nat>)
    requires IsPath(j, path)
    ensures Rank(j, path) < |Walk([j])| && Walk([j])[Rank(j, path)] == At(j, path)
    decreases |path|
  {
    hide Walk, SizeOfItems, Children;
    WalkOne(j);
    if path != [] {
      WalkAround(Children(j), path[0]);
      MetAtRank(Children(j)[path[0]], path[1..]);
    }
  }

  /** Every position of the walk is the rank of some value. */
  lemma {:induction false} RankOfPosition(j: Json, k: nat) returns (path: seq<nat>)
    requires k < |Walk([j])|
    ensures IsPath(j, path) && Rank(j, path) == k
    decreases Size(j)
  {
    hide Walk, SizeOfItems, Children, Size;
    WalkOne(j);
    if k == 0 {
      path := [];
    } else {
      var i := ChildAt(Children(j), k - 1);
      var offset := SizeOfItems(Children(j)[i + 1..]);
      ChildSmaller(j, i);
      var rest := RankOfPosition(Children(j)[i], k - 1 - offset);
      path := [i] + rest;
      assert path[1..] == rest;
    }
  }

  lemma ChildSmaller(j: Json, i: nat)
    requires i < |Children(j)|
    ensures Size(Children(j)[i]) < Size(j)
  {
    hide Size, SizeOfItems, Children;
    var items := Children(j);
    SizeOfChildren(j);
    assert items == items[..i] + items[i..];
    SizeAppend(items[..i], items[i..]);
    SizeOfFirst(items[i..]);
  }

  /** The child whose walk covers a position of the children's walk. */
  lemma {:induction false} ChildAt(items: seq<Json>, k: nat) returns (i: nat)
    requires k < |Walk(items)|
    ensures i < |items|
    ensures SizeOfItems(items[i + 1..]) <= k < SizeOfItems(items[i + 1..]) + |Walk([items[i]])|
    decreases |items|
  {
    hide Walk, SizeOfItems;
    if items == [] {
      WalkNothing();
      assert false;
    } else {
      var n := |items| - 1;
      WalkAround(items, n);
      assert items[n + 1..] == [];
      WalkNothing();
      if k < |Walk([items[n]])| {
        i := n;
      } else {
        WalkFindsAll([items[n]]);
        i := ChildAt(items[..n], k - |Walk([items[n]])|);
        assert items[i + 1..] == items[..n][i + 1..] + [items[n]];
        SizeAppend(items[..n][i + 1..], [items[n]]);
      }
    }
  }

  // ----- When it finds everything ------------------------------------------------------------------------

  lemma {:induction false} LocatorsMembers(values: seq<Json>, x: string)
    ensures x in Locators(values) <==> exists i :: 0 <= i < |values| && x in Own(values[i])
  {
    hide Own;
    if values != [] {
      var n := |values| - 1;
      LocatorsMembers(values[..n], x);
      if x in Own(values[n]) {
      } else if i :| 0 <= i < n && x in Own(values[..n][i]) {
        assert x in Own(values[i]);
      }
    }
  }

  function Found(value: Json): set<string> {
    Locators(Walk([value])[..Min(MAXIMUM_INSPECTED, |Walk([value])|)])
  }

  /** A value whose locator is also met early enough. */
  ghost predicate MetEarly(value: Json, path: seq<nat>)
    requires IsPath(value, path)
  {
    exists early :: IsPath(value, early) && Rank(value, early) < MAXIMUM_INSPECTED && Own(At(value, path)) <= Own(At(value, early))
  }

  /** The first `n` positions of the walk are the values of rank below `n`. */
  lemma LocatorsByRank(value: Json, x: string, n: nat)
    requires n <= |Walk([value])|
    ensures x in Locators(Walk([value])[..n]) <==>
            exists p :: IsPath(value, p) && Rank(value, p) < n && x in Own(At(value, p))
  {
    hide Walk, Locators, Own, Rank, At, IsPath;
    var order := Walk([value]);
    LocatorsMembers(order[..n], x);
    if x in Locators(order[..n]) {
      var k :| 0 <= k < n && x in Own(order[..n][k]);
      var p := RankOfPosition(value, k);
      MetAtRank(value, p);
      assert x in Own(At(value, p));
    }
    if p :| IsPath(value, p) && Rank(value, p) < n && x in Own(At(value, p)) {
      MetAtRank(value, p);
      assert x in Own(order[..n][Rank(value, p)]);
    }
  }

  lemma RanksBelowSize(value: Json)
    ensures |Walk([value])| == Size(value)
    ensures forall p :: IsPath(value, p) ==> Rank(value, p) < Size(value)
  {
    hide Walk, Rank, At, IsPath, Size, SizeOfItems;
    WalkFindsAll([value]);
    SizeSnoc([], value);
    assert [] + [value] == [value];
    WalkNothing();
    forall p | IsPath(value, p) ensures Rank(value, p) < Size(value) {
      MetAtRank(value, p);
    }
  }

  lemma FoundIff(value: Json, x: string)
    ensures x in Found(value) <==>
            exists p :: IsPath(value, p) && Rank(value, p) < MAXIMUM_INSPECTED && x in Own(At(value, p))
    ensures x in AllLocators(value) <==> exists p :: IsPath(value, p) && x in Own(At(value, p))
  {
    hide Walk, Locators, Own, Rank, At, IsPath, AllLocators, LocatorsIn, Size, SizeOfItems;
    var order := Walk([value]);
    RanksBelowSize(value);
    LocatorsByRank(value, x, Min(MAXIMUM_INSPECTED, |order|));
    LocatorsByRank(value, x, |order|);
    assert order[..|order|] == order;
    WalkFindsAll([value]);
    LocatorsInOne(value);
  }

  /** Nothing foreign is ever collected; and everything is exactly when each locator whose value has
      4096 values or more before it, counting its ancestors and the later siblings along its path, is
      also carried by a value with fewer before it. Up to 4096 values that is always so. */
  lemma CollectedWholeIff(value: Json)
    ensures Found(value) <= AllLocators(value)
    ensures Found(value) == AllLocators(value) <==>
            forall p :: IsPath(value, p) && Rank(value, p) >= MAXIMUM_INSPECTED ==> MetEarly(value, p)
    ensures Size(value) <= MAXIMUM_INSPECTED ==> Found(value) == AllLocators(value)
  {
    hide Walk, Rank, At, IsPath, AllLocators, Found, Size, Own;
    forall x ensures x in Found(value) <==>
                     exists p :: IsPath(value, p) && Rank(value, p) < MAXIMUM_INSPECTED && x in Own(At(value, p))
             ensures x in AllLocators(value) <==> exists p :: IsPath(value, p) && x in Own(At(value, p))
    {
      FoundIff(value, x);
    }
    RanksBelowSize(value);
    forall p | IsPath(value, p) && Found(value) == AllLocators(value) ensures MetEarly(value, p) {
      FoundMeetsEarly(value, p);
    }
    if forall p :: IsPath(value, p) && Rank(value, p) >= MAXIMUM_INSPECTED ==> MetEarly(value, p) {
      forall x | x in AllLocators(value) ensures x in Found(value) {
        var p :| IsPath(value, p) && x in Own(At(value, p));
        if Rank(value, p) >= MAXIMUM_INSPECTED {
          var early :| IsPath(value, early) && Rank(value, early) < MAXIMUM_INSPECTED && Own(At(value, p)) <= Own(At(value, early));
        }
      }
    }
  }

  lemma FoundMeetsEarly(value: Json, p: seq<nat>)
    requires IsPath(value, p) && Found(value) == AllLocators(value)
    ensures MetEarly(value, p)
  {
    hide Found, AllLocators, Own, ValidLocator, IsPath, Rank, At;
    OwnAtMostOne(At(value, p));
    RootFirst(value);
    if Own(At(value, p)) != {} {
      var x :| x in Own(At(value, p));
      FoundIff(value, x);
      var early :| IsPath(value, early) && Rank(value, early) < MAXIMUM_INSPECTED && x in Own(At(value, early));
      assert Own(At(value, p)) == {x};
    }
  }

  lemma RootFirst(value: Json)
    ensures IsPath(value, []) && Rank(value, []) == 0
  {
  }

  lemma OwnAtMostOne(j: Json)
    ensures Own(j) == {} || exists x :: Own(j) == {x}
  {
  }

  function Nulls(n: nat): (r: seq<Json>)
    ensures |r| == n
  {
    if n == 0 then [] else Nulls(n - 1) + [Null]
  }

  lemma {:induction false} WalkNulls(bottom: seq<Json>, n: nat)
    ensures Walk(bottom + Nulls(n)) == Nulls(n) + Walk(bottom)
  {
    hide Walk, Nulls, SizeOfItems;
    if n == 0 {
      assert bottom + Nulls(0) == bottom;
      assert Nulls(0) + Walk(bottom) == Walk(bottom);
    } else {
      var stack := bottom + Nulls(n);
      NullsBack(n);
      assert stack == (bottom + Nulls(n - 1)) + [Null];
      assert stack[..|stack| - 1] + Children(Null) == bottom + Nulls(n - 1);
      WalkTop(stack);
      WalkNulls(bottom, n - 1);
      NullsFront(n);
      assert [Null] + (Nulls(n - 1) + Walk(bottom)) == ([Null] + Nulls(n - 1)) + Walk(bottom);
    }
  }

  lemma NullsBack(n: nat)
    requires n > 0
    ensures Nulls(n) == Nulls(n - 1) + [Null]
  {
  }

  lemma {:induction false} NullsFront(n: nat)
    requires n > 0
    ensures [Null] + Nulls(n - 1) == Nulls(n)
  {
    if n > 1 {
      NullsFront(n - 1);
      assert [Null] + Nulls(n - 1) == ([Null] + Nulls(n - 2)) + [Null];
    }
  }

  lemma {:induction false} LocatorsOfNulls(n: nat)
    ensures Locators(Nulls(n)) == {}
  {
    if n > 0 {
      LocatorsOfNulls(n - 1);
      assert Nulls(n)[..n - 1] == Nulls(n - 1);
    }
  }

  lemma WalkPadded(cited: Json, n: nat)
    ensures var value := Array([cited] + Nulls(n));
            Walk([value]) == ([value] + Nulls(n)) + Walk([cited]) && Walk([cited]) != []
  {
    hide Walk, Nulls, SizeOfItems;
    var items := [cited] + Nulls(n);
    var value := Array(items);
    WalkTop([value]);
    assert [value][..0] + Children(value) == items;
    WalkNulls([cited], n);
    WalkTop([cited]);
    assert [value] + (Nulls(n) + Walk([cited])) == ([value] + Nulls(n)) + Walk([cited]);
  }

  lemma LocatorsPadded(cited: Json, n: nat)
    ensures var value := Array([cited] + Nulls(n));
            Locators([value] + Nulls(n)) == {} && AllLocators(cited) <= AllLocators(value)
  {
    hide Locators, AllLocators, LocatorsIn, Nulls, Own;
    var value := Array([cited] + Nulls(n));
    AllOfArray([cited] + Nulls(n));
    LocatorsInAppend([cited], Nulls(n));
    LocatorsInOne(cited);
    LocatorsAppend([value], Nulls(n));
    LocatorsOfOne(value);
    LocatorsOfNulls(n);
  }

  /** The walk goes last child first: a citation in the first element of an array with 4095 more
      elements is not collected. */
  lemma FirstElementMissed(cited: Json, n: nat)
    requires AllLocators(cited) != {} && n == MAXIMUM_INSPECTED - 1
    ensures var value := Array([cited] + Nulls(n));
            Found(value) == {} && AllLocators(value) != {}
  {
    hide Walk, Locators, AllLocators, Nulls;
    var value := Array([cited] + Nulls(n));
    WalkPadded(cited, n);
    LocatorsPadded(cited, n);
    assert Walk([value])[..n + 1] == [value] + Nulls(n);
  }

  lemma AllOfArray(items: seq<Json>)
    ensures AllLocators(Array(items)) == LocatorsIn(items)
    ensures Own(Array(items)) == {}
  {
  }
}
