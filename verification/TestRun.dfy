/** The walks over the finished tree: counting the tests, and running them one after the other. */
module TestRun {
  import opened Options
  import opened Trees
  import opened TestSyntax
  import opened TestChains
  import opened TestChainParser
  import opened Directories
  import opened Expansion

  /** What is at a place and behind it, in the preorder of the whole tree. */
  lemma PreAt(c: Place, f: Shape, t: Shape)
    requires Plug(c, [f]) == [t]
    ensures Pre([t]) == Before(c) + [f.val] + (Pre(f.kids) + After(c))
  {
    hide Pre, Plug, Before, After;
    PrePlug(c, [f]);
    PreHead([f]);
  }

  /** From one visited test to the next: its successor, which is the next test in preorder. */
  lemma Advance(c: Place, f: Shape, t: Shape) returns (d: Place, s: Shape)
    requires WellFormed(t) && Plug(c, [f]) == [t]
    ensures Placed(c, f)
    ensures var rest := Pre(f.kids) + After(c);
            if rest == [] then Step(c, f).Nowhere? && |Pre(t.kids)| == |Before(c)|
            else
              && Step(c, f) == Spot(d, s) && Plug(d, [s]) == [t] && d.In? && Placed(d, s) && s.val == rest[0]
              && |Before(d)| == |Before(c)| + 1 <= |Pre(t.kids)| && s.val == Pre(t.kids)[|Before(c)|]
  {
    hide Pre, Plug, Before, After, Placed, Linked, Distinct, NodeSet;
    d, s := c, f;
    PlugPlaced(c, f);
    PreAt(c, f, t);
    StepMoves(c, f);
    PreHead([t]);
    if Step(c, f).Spot? {
      d, s := Step(c, f).place, Step(c, f).tree;
      PlugPlaced(d, s);
      PreAt(d, s, t);
      assert Pre([t])[|Before(d)|] == s.val;
    }
  }

  /** Visits every test below the root exactly once, in preorder. */
  method CountTests(root: TestChain, ghost t: Shape)
    returns (numberOfTests: nat, listed: seq<string>, ghost visited: seq<TestChain>)
    requires WellFormed(t) && t.val.node == root
    ensures numberOfTests == |listed| == |Pre(t.kids)|
    ensures forall i :: 0 <= i < numberOfTests ==> listed[i] == Pre(t.kids)[i].name
    ensures |visited| == numberOfTests && forall i :: 0 <= i < numberOfTests ==> visited[i] == Pre(t.kids)[i].node
  {
    hide NodeSet, Placed, Pre, Before, After, Linked, Distinct, Step;
    ghost var c: Place, f := Advance(Top, t, t);
    StartsEmpty<Item>();
    NodesExist([t]);
    numberOfTests, listed, visited := 0, [], [];
    var test := root.Next(Top, t);
    while test != null
      invariant WellFormed(t)
      invariant numberOfTests == |listed| == |visited| <= |Pre(t.kids)|
      invariant forall i :: 0 <= i < numberOfTests ==>
        visited[i] == Pre(t.kids)[i].node && listed[i] == Pre(t.kids)[i].name
      invariant test == null ==> numberOfTests == |Pre(t.kids)|
      invariant test != null ==>
        && Plug(c, [f]) == [t] && f.val.node == test && |Before(c)| == numberOfTests + 1
        && numberOfTests < |Pre(t.kids)| && f.val == Pre(t.kids)[numberOfTests]
      decreases |Pre(t.kids)| - numberOfTests
    {
      ghost var d, s := Advance(c, f, t);
      TestString(c, f);
      listed := listed + [test.testStr];
      visited := visited + [test];
      test := test.Next(c, f);
      numberOfTests := numberOfTests + 1;
      c, f := d, s;
    }
  }

  lemma StartsEmpty<A>()
    ensures Before<A>(Top) == []
  {
  }

  lemma TestString(c: Place, f: Shape)
    requires Placed(c, f)
    ensures f.val.node.testStr == f.val.name && f.val.node.parent == ParentAt(c)
  {
  }

  // ----- which runs succeed -----

  /** Every test of a forest fits below the tests above it. */
  ghost predicate AllFit(ts: seq<TestTree>, above: seq<string>, setup: Setup) {
    ts == [] ||
    (Fit(above, ts[0].val, setup) && AllFit(ts[0].kids, above + [ts[0].val], setup) && AllFit(ts[1..], above, setup))
  }

  lemma {:induction false} AllFitAppend(a: seq<TestTree>, b: seq<TestTree>, above: seq<string>, setup: Setup)
    ensures AllFit(a + b, above, setup) <==> AllFit(a, above, setup) && AllFit(b, above, setup)
  {
    hide Fit;
    if a == [] {
      assert a + b == b;
    } else {
      assert (a + b)[1..] == a[1..] + b;
      AllFitAppend(a[1..], b, above, setup);
    }
  }

  /** In a tree all of whose tests fit, what is at a place fits there. */
  lemma {:induction false} FitAt(c: Place, ts: seq<Shape>, t: Shape, setup: Setup)
    requires c.In? && Plug(c, ts) == [t] && AllFit(Labels(t.kids), [t.val.name], setup)
    ensures AllFit(Labels(ts), Names(Ancestors(c)), setup)
  {
    hide Labels, Fit;
    var s := Tree(c.above, c.left + ts + c.right);
    LabelsAppend(c.left + ts, c.right);
    LabelsAppend(c.left, ts);
    NamesAppend(Ancestors(c.up), c.above);
    if c.up.In? {
      FitAt(c.up, [s], t, setup);
      LabelsOf(s);
    } else {
      assert Names(Ancestors(c)) == [t.val.name];
    }
    AllFitAppend(Labels(c.left + ts), Labels(c.right), Names(Ancestors(c)), setup);
    AllFitAppend(Labels(c.left), Labels(ts), Names(Ancestors(c)), setup);
  }

  lemma NamesAppend(above: seq<Item>, x: Item)
    ensures Names(above + [x]) == Names(above) + [x.name]
  {
  }

  lemma {:induction false} PreparedFits(ts: seq<Shape>, above: seq<Item>, setup: Setup)
    requires AllPrepared(ts, above, setup)
    ensures AllFit(Labels(ts), Names(above), setup)
  {
    hide Fit, Nearest, Labels;
    if ts == [] {
      NoNodes();
    } else {
      assert ts == [ts[0]] + ts[1..];
      LabelsAppend([ts[0]], ts[1..]);
      LabelsOf(ts[0]);
      NamesAppend(above, ts[0].val);
      PreparedFits(ts[0].kids, above + [ts[0].val], setup);
      PreparedFits(ts[1..], above, setup);
    }
  }

  // ----- what has been made, and what is still there -----

  /** Every directory is named after its number on a board in its slot. */
  ghost predicate Own(tests: seq<Item>, boards: seq<Testboard>, temps: string -> string)
    reads set i | i in tests :: i.node
  {
    forall i, s :: 0 <= i < |tests| && s in tests[i].node.copies ==>
      Named(s, tests[i].node.copies[s], boards, tests[i].name, temps(tests[i].name))
  }

  /** No two directories are the same, except those that were deleted in between. */
  ghost predicate Apart(tests: seq<Item>)
    reads set i | i in tests :: i.node
  {
    forall i, j, s, r ::
      0 <= i < |tests| && 0 <= j < |tests| && s in tests[i].node.copies && r in tests[j].node.copies
      && !PowerCycle(tests[i].name) && !PowerCycle(tests[j].name) && (i != j || s != r) ==>
        tests[i].node.copies[s].to != tests[j].node.copies[r].to
  }

  ghost predicate Kept(tests: seq<Item>, existing: set<string>)
    reads set i | i in tests :: i.node
  {
    forall i, s :: 0 <= i < |tests| && s in tests[i].node.copies && !PowerCycle(tests[i].name) ==>
      tests[i].node.copies[s].to in existing
  }

  ghost predicate Deleted(tests: seq<Item>, existing: set<string>)
    reads set i | i in tests :: i.node
  {
    forall i, s :: i in tests && s in i.node.copies && PowerCycle(i.name) ==> i.node.copies[s].to !in existing
  }

  ghost predicate Provided(setup: Setup, existing: set<string>) {
    && (forall s :: s in setup.provided ==> s < |setup.defaults|)
    && (forall s :: 0 <= s < |setup.defaults| ==> (s in setup.provided <==> setup.defaults[s] in existing))
  }

  function Defaults(setup: Setup): set<string> {
    set d | d in setup.defaults
  }

  /** The boards have directories of their own, in which nothing has a number to come. */
  ghost predicate Ready(psi: PsiAgente, setup: Setup)
    reads psi, psi.testboards`numerator
  {
    && Separate(psi.testboards) && psi.Slots() == setup.slots && Provided(setup, psi.existing)
    && Fresh(psi.testboards, psi.existing) && Fresh(psi.testboards, Defaults(setup))
  }

  /** After the given tests, below tests of which some may have been power cycles. */
  ghost predicate InOrder(tests: seq<Item>, above: seq<Item>, psi: PsiAgente, setup: Setup, temps: string -> string)
    reads psi, psi.testboards`numerator
    reads set i | i in tests :: i.node
    reads set i | i in above :: i.node
  {
    && Ready(psi, setup)
    && Own(tests, psi.testboards, temps) && Apart(tests) && Kept(tests, psi.existing) && Deleted(above, psi.existing)
  }

  /** What one test adds: its directories are new, and stay, or it was a power cycle. */
  ghost predicate Added(test: Item, was: set<string>, now: set<string>, boards: seq<Testboard>, temp: string)
    reads test.node
  {
    && was <= now && (PowerCycle(test.name) ==> now == was)
    && (forall s :: s in test.node.copies ==>
          && Named(s, test.node.copies[s], boards, test.name, temp)
          && test.node.copies[s].to !in was
          && (!PowerCycle(test.name) ==> test.node.copies[s].to in now))
    && (forall s, r :: s in test.node.copies && r in test.node.copies && s != r ==>
          test.node.copies[s].to != test.node.copies[r].to)
  }

  lemma OneMore(tests: seq<Item>, x: Item, was: set<string>, now: set<string>, boards: seq<Testboard>, temps: string -> string)
    requires Own(tests, boards, temps) && Apart(tests) && Kept(tests, was)
    requires Added(x, was, now, boards, temps(x.name))
    ensures Own(tests + [x], boards, temps) && Apart(tests + [x]) && Kept(tests + [x], now)
  {
    hide Named, PowerCycle;
  }

  lemma {:induction false} AncestorsBefore(c: Place)
    ensures forall i :: i in Ancestors(c) ==> i in Before(c)
  {
    hide Pre;
    if c.In? {
      AncestorsBefore(c.up);
    }
  }

  lemma {:induction false} PreInNodes(ts: seq<Shape>)
    ensures forall i :: i in Pre(ts) ==> i.node in NodeSet(ts)
  {
    if ts != [] {
      PreInNodes(ts[0].kids);
      PreInNodes(ts[1..]);
    }
  }

  lemma {:induction false} BeforeInPlace(c: Place)
    ensures forall i :: i in Before(c) ==> i.node in PlaceSet(c)
  {
    hide Pre, NodeSet;
    if c.In? {
      BeforeInPlace(c.up);
      PreInNodes(c.left);
    }
  }

  lemma {:induction false} ClimbAncestors(c: Place, t: Shape)
    ensures Climb(c, t).Spot? ==> forall i :: i in Ancestors(Climb(c, t).place) ==> i in Ancestors(c)
  {
    if c.In? && c.right == [] {
      ClimbAncestors(c.up, Tree(c.above, c.left + [t]));
    }
  }

  lemma StepAncestors(c: Place, t: Shape)
    ensures Step(c, t).Spot? ==> forall i :: i in Ancestors(Step(c, t).place) ==> i in Ancestors(c) + [t.val]
  {
    if t.kids == [] {
      ClimbAncestors(c, t);
    }
  }

  // ----- where a test's directories are copied from -----

  /** The parent of a test has its directories before the test is set. */
  lemma ParentPrepared(c: Place, setup: Setup)
    requires c.In? && PreparedUpTo(c, setup)
    ensures c.above.node.parameterDir.Some? && |c.above.node.parameterDir.value| == |setup.defaults|
    ensures forall s :: 0 <= s < |setup.defaults| ==>
      c.above.node.parameterDir.value[s] == Nearest(Ancestors(c), setup.defaults, s)
  {
    assert Ancestors(c)[..|Ancestors(c)| - 1] == Ancestors(c.up);
    if c.up.Top? {
      assert Ancestors(c) == [c.above];
    }
  }

  ghost predicate BelowPowerCycle(c: Place) {
    exists a :: a in Names(Ancestors(c)) && PowerCycle(a)
  }

  /** The nearest directory is there exactly if a default directory was provided and no test
      above is a power cycle; without a default directory it is that default directory. */
  lemma {:induction false} SourceExists(c: Place, setup: Setup, existing: set<string>, s: nat)
    requires c.In? && PreparedUpTo(c, setup) && s in setup.slots && s < |setup.defaults|
    requires Provided(setup, existing) && Kept(Before(c), existing) && Deleted(Ancestors(c), existing)
    ensures Nearest(Ancestors(c), setup.defaults, s) in existing <==> s in setup.provided && !BelowPowerCycle(c)
    ensures s !in setup.provided ==> Nearest(Ancestors(c), setup.defaults, s) == setup.defaults[s]
  {
    hide Pre, PowerCycle, Prepares, BoardsFor, AllPrepared;
    var above, up := Ancestors(c), Ancestors(c.up);
    assert above[..|above| - 1] == up && above[|above| - 1] == c.above;
    NamesAppend(up, c.above);
    assert c.above in above;
    if c.up.Top? {
      assert Names(above) == [c.above.name];
      assert Nearest(above, setup.defaults, s) == Nearest(up, setup.defaults, s) == setup.defaults[s];
    } else {
      assert Kept(Before(c.up), existing) by { KeptBefore(c, existing); }
      SourceExists(c.up, setup, existing, s);
      assert BelowPowerCycle(c) <==> BelowPowerCycle(c.up) || PowerCycle(c.above.name) by {
        assert forall a :: a in Names(above) <==> a in Names(up) || a == c.above.name;
      }
      if PowerCycle(c.above.name) {
        PowerCycleIsForAll(c.above.name);
      }
      if s in c.above.node.copies && !PowerCycle(c.above.name) {
        AncestorsBefore(c);
        var k :| 0 <= k < |Before(c)| && Before(c)[k] == c.above;
        assert c.above.node.copies[s].to in existing;
      }
    }
  }

  lemma KeptBefore(c: Place, existing: set<string>)
    requires c.In? && Kept(Before(c), existing)
    ensures Kept(Before(c.up), existing)
  {
    hide Pre, PowerCycle;
    assert forall k :: 0 <= k < |Before(c.up)| ==> Before(c)[k] == Before(c.up)[k];
  }

  /** The least of some indices. */
  lemma {:induction false} Least(psi: PsiAgente, test: string, j: nat) returns (i: nat)
    requires j < |psi.testboards| && Prepares(test, psi.testboards[j].slot)
    ensures i <= j && Prepares(test, psi.testboards[i].slot)
    ensures forall b :: b in psi.testboards[..i] ==> !Prepares(test, b.slot)
  {
    hide Prepares;
    if k :| 0 <= k < j && Prepares(test, psi.testboards[k].slot) {
      i := Least(psi, test, k);
    } else {
      i := j;
    }
  }

  ghost predicate CanCopy(psi: PsiAgente, test: string, temp: string, dirs: seq<string>, existing: set<string>)
    reads psi.testboards`numerator
  {
    && BoardsFor(test) != BadName
    && forall j :: 0 <= j < |psi.testboards| ==> psi.Supplied(test, temp, dirs, existing, j)
  }

  /** All directories to copy are there exactly if the test fits where it is. */
  lemma CanCopyIff(psi: PsiAgente, c: Place, test: string, temp: string, setup: Setup)
    requires c.In? && PreparedUpTo(c, setup) && Ready(psi, setup)
    requires Kept(Before(c), psi.existing) && Deleted(Ancestors(c), psi.existing)
    ensures c.above.node.parameterDir.Some?
    ensures CanCopy(psi, test, temp, c.above.node.parameterDir.value, psi.existing) <==> Fit(Names(Ancestors(c)), test, setup)
  {
    hide Prepares, BoardsFor, PowerCycle, Nearest, TestDir, Current, Kept, Deleted, PreparedUpTo, Pre;
    ParentPrepared(c, setup);
    var dirs := c.above.node.parameterDir.value;
    forall s | s in setup.slots && s < |setup.defaults|
      ensures dirs[s] in psi.existing <==> s in setup.provided && !BelowPowerCycle(c)
      ensures s !in setup.provided ==> dirs[s] in Defaults(setup)
    {
      SourceExists(c, setup, psi.existing, s);
    }
    if CanCopy(psi, test, temp, dirs, psi.existing) {
      forall s | s in setup.slots && Prepares(test, s)
        ensures s in setup.provided && !BelowPowerCycle(c)
      {
        var j :| 0 <= j < |psi.testboards| && psi.testboards[j].slot == s;
        assert psi.Supplied(test, temp, dirs, psi.existing, j);
        var i := Least(psi, test, j);
        assert psi.Supplied(test, temp, dirs, psi.existing, i);
        assert psi.testboards[i].slot in psi.Slots();
      }
    }
    if Fit(Names(Ancestors(c)), test, setup) {
      forall j | 0 <= j < |psi.testboards|
        ensures psi.Supplied(test, temp, dirs, psi.existing, j)
      {
        assert psi.testboards[j].slot in psi.Slots();
      }
    }
  }

  // ----- running the tests -----

  /** What exists after cleaning up. */
  ghost function CleanedUp(test: string, now: set<string>, boards: seq<Testboard>): set<string>
    reads boards`testdir
  {
    if PowerCycle(test) then now - (set b | b in boards :: b.testdir) else now
  }

  /** The numbers after cleaning up are at least these. */
  ghost function Numbers(boards: seq<Testboard>, test: string): map<Testboard, nat>
    reads boards`numerator
  {
    map b | b in boards :: b.numerator + if Prepares(test, b.slot) && !PowerCycle(test) then 1 else 0
  }

  ghost predicate FreshFrom(numbers: map<Testboard, nat>, dirs: set<string>) {
    forall b, k: nat, cur, temp :: b in numbers && k >= numbers[b] ==> TestDir(b.parentDir, k, cur, temp) !in dirs
  }

  lemma FreshNow(numbers: map<Testboard, nat>, boards: seq<Testboard>, dirs: set<string>)
    requires FreshFrom(numbers, dirs) && forall b :: b in boards ==> b in numbers && b.numerator >= numbers[b]
    ensures Fresh(boards, dirs)
  {
    hide TestDir;
  }

  /** What was made while preparing is what the whole test adds. */
  lemma MadeAdds(test: TestChain, name: string, was: set<string>, now: set<string>, boards: seq<Testboard>, temp: string,
                 outside: set<string>)
    requires Made(was, now, test.copies, boards, name, temp)
    requires Separate(boards) && Fresh(boards, was) && Fresh(boards, outside)
    ensures var after := CleanedUp(name, now, boards);
            && Added(Item(test, name), was, after, boards, temp)
            && (forall d :: d in outside ==> (d in after <==> d in was))
            && ((forall b :: b in boards ==> !Prepares(name, b.slot)) ==> after == was)
            && FreshFrom(Numbers(boards, name), after) && FreshFrom(Numbers(boards, name), outside)
  {
    hide BoardsFor, Prepares, TestDir, Current, Named, PowerCycle, NextDir;
    var after := CleanedUp(name, now, boards);
    MadeNamed(was, now, test.copies, boards, name, temp);
    MadeOutside(was, now, test.copies, boards, name, temp, outside);
    if PowerCycle(name) {
      PowerCycleIsForAll(name);
      assert after == was;
    } else {
      forall b, k: nat, cur, temp' | b in boards && k >= Numbers(boards, name)[b]
        ensures TestDir(b.parentDir, k, cur, temp') !in now
      {
        MadeFresh(was, now, test.copies, boards, name, temp, b, k, cur, temp');
      }
    }
  }

  lemma OnceEach(boards: seq<Testboard>)
    requires Separate(boards)
    ensures forall b :: b in boards ==> multiset(boards)[b] == 1
  {
    forall i, j | 0 <= i < j < |boards|
      ensures boards[i] != boards[j]
    {
      assert !(boards[i].parentDir + "/" <= boards[j].parentDir + "/");
    }
    DistinctOnce(boards);
  }

  lemma {:induction false} DistinctOnce<T>(s: seq<T>)
    requires forall i, j :: 0 <= i < j < |s| ==> s[i] != s[j]
    ensures forall x :: x in s ==> multiset(s)[x] == 1
  {
    if s != [] {
      var n := |s| - 1;
      DistinctOnce(s[..n]);
      assert s == s[..n] + [s[n]];
    }
  }

  /** Cleans up after a test that has been prepared. */
  method CleanUp(psi: PsiAgente, test: TestChain, ghost name: string, ghost temp: string, ghost was: set<string>,
                 ghost outside: set<string>)
    requires Made(was, psi.existing, test.copies, psi.testboards, name, temp)
    requires Separate(psi.testboards) && Fresh(psi.testboards, was) && Fresh(psi.testboards, outside)
    requires psi.currenttest == Current(name) && forall slot: nat :: Prepares(name, slot) <==> psi.ForBoard(slot)
    modifies psi`existing, psi.testboards`numerator
    ensures Added(Item(test, name), was, psi.existing, psi.testboards, temp)
    ensures Fresh(psi.testboards, psi.existing) && Fresh(psi.testboards, outside)
    ensures forall d :: d in outside ==> (d in psi.existing <==> d in was)
    ensures (forall s :: s in psi.Slots() ==> !Prepares(name, s)) ==> psi.existing == was
    ensures forall b :: b in psi.testboards ==>
              b.numerator == old(b.numerator) + if Prepares(name, b.slot) && !PowerCycle(name) then 1 else 0
  {
    hide BoardsFor, Prepares, TestDir, Current, SingleChannel, Made, Added, Fresh, FreshFrom, Separate;
    ghost var boards := psi.testboards;
    MadeAdds(test, name, was, psi.existing, boards, temp, outside);
    ghost var numbers := Numbers(boards, name);
    if PowerCycle(name) {
      PowerCycleIsForAll(name);
    }
    ghost var after := CleanedUp(name, psi.existing, boards);
    ghost var dirs := set b | b in boards :: b.testdir;
    psi.CleanupTest();
    assert dirs == set b | b in boards :: b.testdir;
    assert psi.existing == after;
    forall b | b in boards
      ensures b.numerator == numbers[b]
    {
      assert Prepares(name, b.slot) <==> psi.ForBoard(b.slot);
      assert multiset(boards)[b] == 1 by { OnceEach(boards); }
    }
    FreshNow(numbers, boards, psi.existing);
    FreshNow(numbers, boards, outside);
    assert forall b :: b in boards ==> b.slot in psi.Slots();
  }

  /** Sets, prepares and cleans up after one test. */
  method RunOne(psi: PsiAgente, test: TestChain, temp: string, ghost outside: set<string>) returns (ok: bool)
    requires test.parent != null && test.parent != test && test.parent.parameterDir.Some?
    requires Separate(psi.testboards) && Fresh(psi.testboards, psi.existing) && Fresh(psi.testboards, outside)
    modifies psi`test, psi`currenttest, psi`activeTestboard, psi`existing
    modifies psi.testboards`testdir, psi.testboards`numerator
    modifies test`parameterDir, test`copies
    ensures ok <==> old(CanCopy(psi, test.testStr, temp, test.parent.parameterDir.value, psi.existing))
    ensures ok ==> CopiedFor(test, test.parent.parameterDir.value, test.testStr, psi.Slots())
    ensures ok ==> Added(Item(test, test.testStr), old(psi.existing), psi.existing, psi.testboards, temp)
    ensures ok ==> Fresh(psi.testboards, psi.existing) && Fresh(psi.testboards, outside)
    ensures ok ==> forall d :: d in outside ==> (d in psi.existing <==> d in old(psi.existing))
    ensures ok && (forall s :: s in psi.Slots() ==> !Prepares(test.testStr, s)) ==> psi.existing == old(psi.existing)
    ensures ok ==> forall b :: b in psi.testboards ==>
              b.numerator == old(b.numerator) + if Prepares(test.testStr, b.slot) && !PowerCycle(test.testStr) then 1 else 0
  {
    hide BoardsFor, Prepares, CopiedFor, TestDir, Current, SingleChannel, Made, Added, Fresh, FreshFrom, Separate;
    hide PsiAgente.Supplied;
    ghost var was, name, dirs := psi.existing, test.testStr, test.parent.parameterDir.value;
    ghost var can := CanCopy(psi, name, temp, dirs, was);
    psi.SetTest(test);
    ok := psi.PrepareTest(test.testStr, temp);
    assert ok <==> CanCopy(psi, name, temp, dirs, was);
    if ok {
      CleanUp(psi, test, name, temp, was, outside);
    }
  }

  lemma StillDeleted(above: seq<Item>, x: Item, was: set<string>, now: set<string>, boards: seq<Testboard>, temp: string)
    requires Deleted(above, was) && Added(x, was, now, boards, temp)
    requires (exists a :: a in Names(above) && PowerCycle(a)) ==> now == was
    ensures Deleted(above + [x], now)
  {
    hide PowerCycle, Named;
    assert forall i :: i in above ==> i.name in Names(above) by {
      assert forall k :: 0 <= k < |above| ==> Names(above)[k] == above[k].name;
    }
  }

  lemma PreparedHere(above: seq<Item>, x: Item, dirs: seq<string>, setup: Setup)
    requires CopiedFor(x.node, dirs, x.name, setup.slots) && Fit(Names(above), x.name, setup)
    requires |dirs| == |setup.defaults| && forall s :: 0 <= s < |dirs| ==> dirs[s] == Nearest(above, setup.defaults, s)
    ensures Prepared(above, x, setup)
  {
    hide Nearest, Fit, Prepares;
  }

  /** Running a test at its place in the tree, with everything before it prepared. */
  method RunTest(psi: PsiAgente, test: TestChain, temps: string -> string,
                 ghost c: Place, ghost f: Shape, ghost t: Shape, ghost setup: Setup)
    returns (ok: bool)
    requires c.In? && Placed(c, f) && f.val.node == test && PreparedUpTo(c, setup) && Plug(c, [f]) == [t]
    requires InOrder(Before(c), Ancestors(c), psi, setup, temps)
    modifies psi`test, psi`currenttest, psi`activeTestboard, psi`existing
    modifies psi.testboards`testdir, psi.testboards`numerator
    modifies test`parameterDir, test`copies
    ensures ok <==> Fit(Names(Ancestors(c)), f.val.name, setup)
    ensures ok && Step(c, f).Spot? ==> PreparedUpTo(Step(c, f).place, setup)
    ensures ok && Step(c, f).Nowhere? ==> AllPrepared(t.kids, [t.val], setup)
    ensures ok ==> InOrder(Before(c) + [f.val], Ancestors(c) + [f.val], psi, setup, temps)
  {
    hide PreparedUpTo, Nearest, PlaceLinked, PlaceDistinct, NodeSet, Linked, Distinct, AllPrepared, Plug, Step, Fit,
      Own, Apart, Kept, Deleted, Added, CopiedFor, Separate, Fresh, Before, Ancestors, CanCopy, Prepared;
    ghost var was, name, above := psi.existing, f.val.name, Ancestors(c);
    One(f, c.above.node);
    Members(c, f);
    AncestorsInPlace(c);
    BeforeInPlace(c);
    PlaceNodesExist(c);
    ParentPrepared(c, setup);
    ghost var dirs := c.above.node.parameterDir.value;
    CanCopyIff(psi, c, name, temps(name), setup);
    ok := RunOne(psi, test, temps(test.testStr), Defaults(setup));
    if ok {
      ParentPrepared(c, setup);
      PreparedHere(above, f.val, dirs, setup);
      StepPrepared(c, f, setup);
      PlugOuter(c, [f]);
      OneMore(Before(c), f.val, was, psi.existing, psi.testboards, temps);
      assert (exists a :: a in Names(above) && PowerCycle(a)) ==> psi.existing == was by { FitBelow(above, name, setup); }
      StillDeleted(above, f.val, was, psi.existing, psi.testboards, temps(name));
    }
  }

  lemma FitBelow(above: seq<Item>, test: string, setup: Setup)
    requires Fit(Names(above), test, setup)
    ensures (exists a :: a in Names(above) && PowerCycle(a)) ==> forall s :: s in setup.slots ==> !Prepares(test, s)
  {
  }

  lemma {:induction false} OuterInPlace(c: Place)
    requires c.In?
    ensures Outer(c).node in PlaceSet(c)
  {
    if c.up.In? {
      OuterInPlace(c.up);
    }
  }

  lemma BelowRoot(c: Place, f: Shape, t: Shape)
    requires c.In? && Placed(c, f) && Plug(c, [f]) == [t]
    ensures f.val.node in NodeSet(t.kids)
  {
    PlugOuter(c, [f]);
    OuterInPlace(c);
    PlugNodes(c, f);
    Members(c, f);
    One(t, null);
  }

  lemma BeforeIs(c: Place, f: Shape, t: Shape)
    requires Plug(c, [f]) == [t]
    ensures |Before(c)| <= |Pre([t])| && Before(c) == Pre([t])[..|Before(c)|]
    ensures |Pre([t])| == |Pre(t.kids)| + 1 && Pre([t])[0] == t.val
    ensures forall i :: 0 <= i < |Pre(t.kids)| ==> Pre([t])[i + 1] == Pre(t.kids)[i]
  {
    hide Pre, Plug, Before, After;
    PreAt(c, f, t);
    PreHead([t]);
  }

  /** In a tree all of whose tests fit, each fits at its place. */
  lemma FitHere(c: Place, f: Shape, t: Shape, setup: Setup)
    requires c.In? && Plug(c, [f]) == [t]
    ensures AllFit(Labels(t.kids), [t.val.name], setup) ==> Fit(Names(Ancestors(c)), f.val.name, setup)
  {
    hide Labels, Fit, Plug;
    if AllFit(Labels(t.kids), [t.val.name], setup) {
      FitAt(c, [f], t, setup);
      LabelsOf(f);
    }
  }

  lemma OnlyRoot(root: Item, psi: PsiAgente, setup: Setup, temps: string -> string)
    requires root.node.copies == map[] && Ready(psi, setup)
    ensures InOrder([root], [root], psi, setup, temps)
  {
    hide Separate, Fresh;
  }

  lemma WithoutRoot(root: Item, tests: seq<Item>, above: seq<Item>, psi: PsiAgente, setup: Setup, temps: string -> string)
    requires InOrder([root] + tests, above, psi, setup, temps)
    ensures Own(tests, psi.testboards, temps) && Apart(tests)
  {
    hide Separate, Fresh, Named, PowerCycle;
    assert forall i :: 0 <= i < |tests| ==> ([root] + tests)[i + 1] == tests[i];
  }

  lemma FewerAbove(tests: seq<Item>, above: seq<Item>, fewer: seq<Item>, psi: PsiAgente, setup: Setup, temps: string -> string)
    requires InOrder(tests, above, psi, setup, temps) && forall i :: i in fewer ==> i in above
    ensures InOrder(tests, fewer, psi, setup, temps)
  {
    hide Separate, Fresh, Own, Apart, Kept;
  }

  /** The tests up to a place in preorder have been run, or all tests if there is no place left. */
  ghost predicate RunUpTo(c: Place, f: Shape, test: TestChain?, t: Shape, testno: nat, psi: PsiAgente, setup: Setup,
                          temps: string -> string)
    reads psi, psi.testboards`numerator, PlaceSet(c), NodeSet(t.kids), t.val.node
  {
    AncestorsInPlace(c);
    BeforeInPlace(c);
    PreInNodes(t.kids);
    if test == null then
      && testno == |Pre(t.kids)| && AllPrepared(t.kids, [t.val], setup)
      && Own(Pre(t.kids), psi.testboards, temps) && Apart(Pre(t.kids))
    else
      && Plug(c, [f]) == [t] && f.val.node == test && |Before(c)| == testno + 1 && c.In?
      && testno < |Pre(t.kids)| && f.val == Pre(t.kids)[testno] && PreparedUpTo(c, setup)
      && InOrder(Before(c), Ancestors(c), psi, setup, temps)
  }

  /** Runs every test once, in preorder. Each is prepared, with the nearest ancestor's directories
      as its source, before its successor is set, and no directory is used twice. It fails
      exactly when some test does not fit below the tests above it. */
  method RunTests(root: TestChain, psi: PsiAgente, temps: string -> string, ghost t: Shape, ghost setup: Setup)
    returns (ok: bool, testno: nat)
    requires WellFormed(t) && t.val.node == root && IsRoot(t.val, setup) && Ready(psi, setup)
    modifies psi`test, psi`currenttest, psi`activeTestboard, psi`existing
    modifies psi.testboards`testdir, psi.testboards`numerator
    modifies NodeSet(t.kids)`parameterDir, NodeSet(t.kids)`copies
    ensures ok <==> AllFit(Labels(t.kids), [t.val.name], setup)
    ensures ok ==> testno == |Pre(t.kids)| && AllPrepared(t.kids, [t.val], setup)
    ensures ok ==> Own(Pre(t.kids), psi.testboards, temps) && Apart(Pre(t.kids))
  {
    hide NodeSet, Linked, Distinct, RunUpTo, PlaceSet, Ready, AllFit, Labels, Own, Apart, AllPrepared, Pre, Placed,
      InOrder, PreparedUpTo, Before, After, Ancestors, Fit, Step;
    ghost var c: Place, f := Advance(Top, t, t);
    StartsEmpty<Item>();
    StartRun(c, f, t, psi, setup, temps);
    NodesExist([t]);
    One(t, null);
    PlaceNodesExist(c);
    testno := 0;
    var test := root.Next(Top, t);
    while test != null
      invariant WellFormed(t) && testno <= |Pre(t.kids)|
      invariant RunUpTo(c, f, test, t, testno, psi, setup, temps)
      decreases |Pre(t.kids)| - testno
    {
      AtPlace(c, f, test, t, testno, psi, setup, temps);
      ghost var d, s := Advance(c, f, t);
      BelowRoot(c, f, t);
      PlugNodes(c, f);
      FitHere(c, f, t, setup);
      ok := RunTest(psi, test, temps, c, f, t, setup);
      if !ok {
        return;
      }
      MoveOn(c, f, d, s, t, testno, psi, setup, temps);
      PlaceNodesExist(c);
      PlaceNodesExist(d);
      NodesExist([t]);
      testno := testno + 1;
      test := test.Next(c, f);
      c, f := d, s;
    }
    AllRun(c, f, t, testno, psi, setup, temps);
    ok := true;
  }

  lemma AtPlace(c: Place, f: Shape, test: TestChain, t: Shape, testno: nat, psi: PsiAgente, setup: Setup, temps: string -> string)
    requires RunUpTo(c, f, test, t, testno, psi, setup, temps)
    ensures Plug(c, [f]) == [t] && f.val.node == test && |Before(c)| == testno + 1 && c.In?
    ensures testno < |Pre(t.kids)| && f.val == Pre(t.kids)[testno] && PreparedUpTo(c, setup)
    ensures InOrder(Before(c), Ancestors(c), psi, setup, temps)
  {
    hide InOrder, PreparedUpTo, Pre, Plug, Before;
  }

  lemma AllRun(c: Place, f: Shape, t: Shape, testno: nat, psi: PsiAgente, setup: Setup, temps: string -> string)
    requires RunUpTo(c, f, null, t, testno, psi, setup, temps)
    ensures testno == |Pre(t.kids)| && AllPrepared(t.kids, [t.val], setup) && AllFit(Labels(t.kids), [t.val.name], setup)
    ensures Own(Pre(t.kids), psi.testboards, temps) && Apart(Pre(t.kids))
  {
    hide AllPrepared, AllFit, Labels, Own, Apart, Pre;
    PreparedFits(t.kids, [t.val], setup);
    assert Names([t.val]) == [t.val.name];
  }

  lemma StartRun(c: Place, f: Shape, t: Shape, psi: PsiAgente, setup: Setup, temps: string -> string)
    requires WellFormed(t) && IsRoot(t.val, setup) && Ready(psi, setup)
    requires var rest := Pre(t.kids) + After<Item>(Top);
             if rest == [] then Step(Top, t).Nowhere? else
               && Step(Top, t) == Spot(c, f) && Plug(c, [f]) == [t] && c.In? && f.val == rest[0]
               && |Before(c)| == 1
    ensures RunUpTo(c, f, First(Pre(t.kids) + After(Top)), t, 0, psi, setup, temps)
  {
    hide Pre, Plug, Before, Step, Own, Apart, Ready, InOrder, PreparedUpTo, Ancestors, AllPrepared;
    StartPrepared(t, setup);
    OnlyRoot(t.val, psi, setup, temps);
    NothingOwn(psi.testboards, temps);
    assert Pre(t.kids) + After(Top) == Pre(t.kids);
    if Step(Top, t).Spot? {
      BeforeIs(c, f, t);
      assert Before(c) == [t.val];
    }
  }

  lemma NothingOwn(boards: seq<Testboard>, temps: string -> string)
    ensures Own([], boards, temps) && Apart([])
  {
  }

  lemma MoveOn(c: Place, f: Shape, d: Place, s: Shape, t: Shape, testno: nat, psi: PsiAgente, setup: Setup, temps: string -> string)
    requires Plug(c, [f]) == [t] && |Before(c)| == testno + 1 && testno < |Pre(t.kids)| && f.val == Pre(t.kids)[testno]
    requires var rest := Pre(f.kids) + After(c);
             if rest == [] then Step(c, f).Nowhere? && |Pre(t.kids)| == |Before(c)| else
               && Step(c, f) == Spot(d, s) && Plug(d, [s]) == [t] && d.In? && s.val == rest[0]
               && |Before(d)| == |Before(c)| + 1 <= |Pre(t.kids)| && s.val == Pre(t.kids)[|Before(c)|]
    requires Step(c, f).Spot? ==> PreparedUpTo(Step(c, f).place, setup)
    requires Step(c, f).Nowhere? ==> AllPrepared(t.kids, [t.val], setup)
    requires InOrder(Before(c) + [f.val], Ancestors(c) + [f.val], psi, setup, temps)
    ensures RunUpTo(d, s, First(Pre(f.kids) + After(c)), t, testno + 1, psi, setup, temps)
  {
    hide Pre, Plug, Before, After, Step, Own, Apart, InOrder, PreparedUpTo, Ancestors, AllPrepared;
    BeforeIs(c, f, t);
    if Step(c, f).Spot? {
      BeforeIs(d, s, t);
      assert Before(d) == Before(c) + [f.val];
      StepAncestors(c, f);
      FewerAbove(Before(d), Ancestors(c) + [f.val], Ancestors(d), psi, setup, temps);
    } else {
      assert Before(c) + [f.val] == [t.val] + Pre(t.kids);
      WithoutRoot(t.val, Pre(t.kids), Ancestors(c) + [f.val], psi, setup, temps);
    }
  }

  lemma StartPrepared(t: Shape, setup: Setup)
    requires IsRoot(t.val, setup)
    ensures Step(Top, t).Spot? ==> PreparedUpTo(Step(Top, t).place, setup) && Ancestors(Step(Top, t).place) == [t.val]
    ensures Step(Top, t).Nowhere? ==> AllPrepared(t.kids, [t.val], setup)
  {
  }

  // ----- the whole run -----

  datatype Outcome = NotParsed | NotSplittable | NotPreparable | Completed(numberOfTests: nat, testno: nat)

  function SlotsOf(boards: seq<Testboard>): (r: seq<nat>)
    ensures |r| == |boards|
  {
    seq(|boards|, i requires 0 <= i < |boards| => boards[i].slot)
  }

  /** The default directories of the slots, and which of them exist. */
  ghost function SetupOf(psi: PsiAgente, dirs: seq<string>): Setup
    reads psi`existing
  {
    Setup(dirs, psi.Slots(), set s | 0 <= s < |dirs| && dirs[s] in psi.existing)
  }

  /** Parses, expands, counts and runs a list of tests. Whether this succeeds depends on the text,
      the boards and the default directories alone, and the last test run carries the number of
      tests counted. */
  method RunTestList(text: string, psi: PsiAgente, dirs: seq<string>, multichannelHV: bool, temps: string -> string)
    returns (outcome: Outcome, ghost u: Shape)
    requires Separate(psi.testboards) && Fresh(psi.testboards, psi.existing) && Fresh(psi.testboards, set d | d in dirs)
    modifies psi`test, psi`currenttest, psi`activeTestboard, psi`existing
    modifies psi.testboards`testdir, psi.testboards`numerator
    ensures var read := ReadTestList(text);
            if read.None? then outcome == NotParsed
            else
              var setup := old(SetupOf(psi, dirs));
              var expanded := Expand(read.value.kids, SlotsOf(psi.testboards), multichannelHV);
              if !AllSplittable(Pre(read.value.kids)) then outcome == NotSplittable
              else if !AllFit(expanded, ["ROOT"], setup) then outcome == NotPreparable
              else
                && outcome == Completed(|Pre(expanded)|, |Pre(expanded)|)
                && Labels(u.kids) == expanded && AllPrepared(u.kids, [u.val], setup)
                && Own(Pre(u.kids), psi.testboards, temps) && Apart(Pre(u.kids))
  {
    hide Labels, Expand, NodeSet, Linked, Distinct, Pre, AllSplittable, AllPrepared, AllFit, ReadTestList, Separate, Fresh,
      Own, Apart, PowerCycle;
    ghost var t;
    ghost var setup := SetupOf(psi, dirs);
    var root;
    root, t := ParseTestList(text);
    u := t;
    if root == null {
      return NotParsed, u;
    }
    LabelsOf(t);
    One(t, null);
    RootIsNoPowerCycle(text);
    root.parameterDir := Some(dirs);
    var ok, n, testno;
    ghost var steps, visited, listed;
    ok, u, steps := ExpandTests(root, SlotsOf(psi.testboards), multichannelHV, t);
    if !ok {
      return NotSplittable, u;
    }
    NodesExist([u]);
    LabelsOf(u);
    One(u, null);
    PreLabels(u.kids);
    n, listed, visited := CountTests(root, u);
    ok, testno := RunTests(root, psi, temps, u, setup);
    if !ok {
      return NotPreparable, u;
    }
    outcome := Completed(n, testno);
  }

  lemma RootIsNoPowerCycle(text: string)
    ensures ReadTestList(text).Some? ==> ReadTestList(text).value.val == "ROOT"
    ensures !PowerCycle("ROOT")
  {
    hide SplitAt;
    assert |Which("ROOT")| <= 4 && |"powercycle"| == 10;
    assert |"IV"| == 2 && |"LeakageCurrentPON"| == 17 && |"LeakageCurrentPOFF"| == 18;
  }
}
