/** The walk that replaces single-channel tests by one test per testboard, in the tree it walks. */
module Expansion {
  import opened Trees
  import opened TestSyntax
  import opened TestChains

  // ----- test strings -----

  /** The index of the first at sign, or the length. */
  function FindAt(s: string): (i: nat)
    ensures i <= |s| && '@' !in s[..i] && (i < |s| ==> s[i] == '@')
  {
    if s == [] || s[0] == '@' then 0 else
      assert forall i :: 0 < i <= |s| ==> s[..i] == [s[0]] + s[1..][..i - 1];
      1 + FindAt(s[1..])
  }

  /** Splitting at the at signs gives one part or two; anything else cannot be unpacked. */
  predicate Splittable(s: string) {
    FindAt(s) < |s| ==> '@' !in s[FindAt(s) + 1..]
  }

  function Which(s: string): string {
    s[..FindAt(s)]
  }

  function Env(s: string): string {
    if FindAt(s) < |s| then s[FindAt(s) + 1..] else "17.0"
  }

  function LowerChar(c: char): char {
    if 'A' <= c <= 'Z' then (c as int + 32) as char else c
  }

  function Lower(s: string): (r: string)
    ensures |r| == |s|
  {
    seq(|s|, i requires 0 <= i < |s| => LowerChar(s[i]))
  }

  predicate PerBoard(which: string) {
    which == "IV" || Lower(which) == "leakagecurrentpon" || Lower(which) == "leakagecurrentpoff"
  }

  function Digits(n: nat): (r: string)
    ensures |r| > 0 && forall i :: 0 <= i < |r| ==> '0' <= r[i] <= '9'
  {
    var d := [(n % 10 + '0' as int) as char];
    if n < 10 then d else Digits(n / 10) + d
  }

  function Renamed(test: string, slot: nat): string {
    Which(test) + "_TB" + Digits(slot) + "@" + Env(test)
  }

  /** The names of the copies that replace a test; none where it stays as it is. */
  function Renames(test: string, slots: seq<nat>, multichannel: bool): seq<string> {
    if Splittable(test) && PerBoard(Which(test)) && !multichannel then
      seq(|slots|, i requires 0 <= i < |slots| => Renamed(test, slots[i]))
    else []
  }

  lemma {:induction false} FindAtIs(w: string, rest: string)
    requires '@' !in w && (rest == "" || rest[0] == '@')
    ensures FindAt(w + rest) == |w|
  {
    if w == "" {
      assert w + rest == rest;
    } else {
      assert (w + rest)[1..] == w[1..] + rest;
      FindAtIs(w[1..], rest);
    }
  }

  /** A string is split at its one at sign; without one, the environment is 17.0. */
  lemma SplitsAt(w: string, e: string)
    requires '@' !in w
    ensures Which(w) == w && Env(w) == "17.0" && Splittable(w)
    ensures Which(w + "@" + e) == w && Env(w + "@" + e) == e && (Splittable(w + "@" + e) <==> '@' !in e)
  {
    hide FindAt;
    FindAtIs(w, "");
    assert w + "" == w;
    FindAtIs(w, "@" + e);
    assert w + "@" + e == w + ("@" + e);
    assert (w + ("@" + e))[|w| + 1..] == e && (w + ("@" + e))[..|w|] == w;
  }

  lemma LowerIs(i: nat, c: char)
    requires i < 26
    ensures LowerChar("ABCDEFGHIJKLMNOPQRSTUVWXYZ"[i]) == "abcdefghijklmnopqrstuvwxyz"[i]
    ensures !('A' <= c <= 'Z') ==> LowerChar(c) == c
  {
  }

  /** Numbers are written in decimal. */
  lemma DigitsIs(n: nat)
    ensures n < 10 ==> Digits(n) == ["0123456789"[n]]
    ensures n >= 10 ==> Digits(n) == Digits(n / 10) + Digits(n % 10)
  {
    assert n % 10 < 10;
  }

  /** Which tests are replaced, and by what. */
  lemma RenamesIs(test: string, slots: seq<nat>, multichannel: bool)
    requires Splittable(test)
    ensures var w := Which(test);
            Renames(test, slots, multichannel)
            == if !multichannel && (w == "IV" || Lower(w) == "leakagecurrentpon" || Lower(w) == "leakagecurrentpoff")
               then seq(|slots|, i requires 0 <= i < |slots| => w + "_TB" + Digits(slots[i]) + "@" + Env(test))
               else []
  {
    hide Lower, Digits, FindAt;
  }

  lemma ParsesRenamed(test: string, slot: nat)
    requires Splittable(test)
    ensures Which(Renamed(test, slot)) == Which(test) + "_TB" + Digits(slot)
    ensures Env(Renamed(test, slot)) == Env(test)
    ensures Splittable(Renamed(test, slot))
  {
    hide FindAt, Digits;
    var w := Which(test) + "_TB" + Digits(slot);
    var e := Env(test);
    assert '@' !in w && '@' !in e;
    FindAtIs(w, "@" + e);
    assert Renamed(test, slot) == w + ("@" + e);
    assert (w + ("@" + e))[|w| + 1..] == e;
    assert (w + ("@" + e))[..|w|] == w;
  }

  /** A test without an environment gets the default one. */
  lemma RenamedBare(test: string, slot: nat)
    requires '@' !in test
    ensures Renamed(test, slot) == test + "_TB" + Digits(slot) + "@17.0"
  {
    hide Digits, FindAt;
    SplitsAt(test, "");
    assert "@" + "17.0" == "@17.0";
  }

  /** A renamed test is never replaced again. */
  lemma RenamedStays(test: string, slot: nat, slots: seq<nat>, multichannel: bool)
    requires Splittable(test)
    ensures Renames(Renamed(test, slot), slots, multichannel) == []
  {
    ParsesRenamed(test, slot);
    var w := Which(test) + "_TB" + Digits(slot);
    var at := |Which(test)|;
    assert w[at] == '_' && Lower(w)[at] == '_';
    assert "IV"[0] == 'I' && '_' !in "IV" && '_' !in "leakagecurrentpon" && '_' !in "leakagecurrentpoff";
  }

  // ----- the expanded tree -----

  /** Every test to be replaced becomes one renamed copy per name, each above the expanded subtree. */
  function Expand(ts: seq<TestTree>, slots: seq<nat>, multichannel: bool): seq<TestTree> {
    if ts == [] then [] else
      var kids := Expand(ts[0].kids, slots, multichannel);
      var names := Renames(ts[0].val, slots, multichannel);
      (if names == [] then [Tree(ts[0].val, kids)] else Copies(names, kids)) + Expand(ts[1..], slots, multichannel)
  }

  lemma {:induction false} ExpandAppend(a: seq<TestTree>, b: seq<TestTree>, slots: seq<nat>, multichannel: bool)
    ensures Expand(a + b, slots, multichannel) == Expand(a, slots, multichannel) + Expand(b, slots, multichannel)
  {
    hide Renames, Copies;
    if a == [] {
      assert a + b == b;
    } else {
      assert (a + b)[1..] == a[1..] + b && (a + b)[0] == a[0];
      ExpandAppend(a[1..], b, slots, multichannel);
    }
  }

  /** With one channel for all boards, an IV or leakage current test becomes one tree per slot; any
      other test stays. */
  lemma ExpandIs(t: TestTree, slots: seq<nat>, multichannel: bool)
    requires Splittable(t.val)
    ensures var w, kids := Which(t.val), Expand(t.kids, slots, multichannel);
            Expand([t], slots, multichannel)
            == if !multichannel && slots != []
                  && (w == "IV" || Lower(w) == "leakagecurrentpon" || Lower(w) == "leakagecurrentpoff")
               then seq(|slots|, i requires 0 <= i < |slots| => Tree(w + "_TB" + Digits(slots[i]) + "@" + Env(t.val), kids))
               else [Tree(t.val, kids)]
  {
    hide Lower, Digits, FindAt, Renames;
    RenamesIs(t.val, slots, multichannel);
    assert [t][1..] == [];
    assert Expand([t][1..], slots, multichannel) == [];
  }

  lemma FirstCopy(names: seq<string>, kids: seq<TestTree>)
    requires names != []
    ensures Copies(names, kids) == [Tree(names[0], kids)] + Copies(names[1..], kids)
  {
  }

  lemma {:induction false} ExpandCopies(names: seq<string>, kids: seq<TestTree>, slots: seq<nat>, multichannel: bool)
    requires forall i :: 0 <= i < |names| ==> Renames(names[i], slots, multichannel) == []
    ensures Expand(Copies(names, kids), slots, multichannel) == Copies(names, Expand(kids, slots, multichannel))
  {
    if names != [] {
      hide Renames, Expand, Copies;
      var e := Expand(kids, slots, multichannel);
      FirstCopy(names, kids);
      FirstCopy(names, e);
      forall i | 0 <= i < |names[1..]| ensures Renames(names[1..][i], slots, multichannel) == [] {
        assert names[1..][i] == names[i + 1];
      }
      ExpandCopies(names[1..], kids, slots, multichannel);
      ExpandAppend([Tree(names[0], kids)], Copies(names[1..], kids), slots, multichannel);
      ExpandOne(Tree(names[0], kids), slots, multichannel);
    } else {
      assert Copies(names, kids) == [] && Copies(names, Expand(kids, slots, multichannel)) == [];
    }
  }

  /** Nothing is left to expand in an expanded tree. */
  lemma {:induction false} ExpandTwice(ts: seq<TestTree>, slots: seq<nat>, multichannel: bool)
    ensures var e := Expand(ts, slots, multichannel);
            Expand(e, slots, multichannel) == e
  {
    if ts != [] {
      var kids, rest := Expand(ts[0].kids, slots, multichannel), Expand(ts[1..], slots, multichannel);
      var names := Renames(ts[0].val, slots, multichannel);
      ExpandTwice(ts[0].kids, slots, multichannel);
      ExpandTwice(ts[1..], slots, multichannel);
      if names == [] {
        ExpandAppend([Tree(ts[0].val, kids)], rest, slots, multichannel);
        ExpandOne(Tree(ts[0].val, kids), slots, multichannel);
      } else {
        forall i | 0 <= i < |names|
          ensures Renames(names[i], slots, multichannel) == []
        {
          RenamedStays(ts[0].val, slots[i], slots, multichannel);
        }
        ExpandCopies(names, kids, slots, multichannel);
        ExpandAppend(Copies(names, kids), rest, slots, multichannel);
      }
    }
  }

  // ----- what the walk still owes -----

  /** The finished tree, when the hole ends up as done and all to the right of it is still to be expanded. */
  ghost function Finish(c: Place, done: seq<TestTree>, slots: seq<nat>, multichannel: bool): seq<TestTree> {
    match c
    case Top => done
    case In(up, above, left, right) =>
      var kids := Labels(left) + done + Expand(Labels(right), slots, multichannel);
      Finish(up, [Tree(above.name, kids)], slots, multichannel)
  }

  lemma {:induction false} ClimbFinishes(c: Place, t: Shape, slots: seq<nat>, multichannel: bool)
    ensures Finish(c, Labels([t]), slots, multichannel) ==
            if Climb(c, t).Nowhere? then Labels(Plug(c, [t]))
            else Finish(Climb(c, t).place, Expand(Labels([Climb(c, t).tree]), slots, multichannel), slots, multichannel)
  {
    match c
    case Top =>
    case In(up, above, left, right) =>
      LabelsAppend(left, [t]);
      if right != [] {
        assert right == [right[0]] + right[1..];
        LabelsAppend([right[0]], right[1..]);
        ExpandAppend(Labels([right[0]]), Labels(right[1..]), slots, multichannel);
        var e := Expand(Labels([right[0]]), slots, multichannel);
        var f := Expand(Labels(right[1..]), slots, multichannel);
        assert Labels(left) + Labels([t]) + (e + f) == (Labels(left) + Labels([t])) + e + f;
      } else {
        var s := Tree(above, left + [t]);
        assert left + [t] + right == left + [t];
        LabelsOf(s);
        assert Labels(left) + Labels([t]) + Expand([], slots, multichannel) == Labels(left) + Labels([t]);
        ClimbFinishes(up, s, slots, multichannel);
      }
  }

  /** Moving on from a test that stays as it is leaves the finished tree the same. */
  lemma StepFinishes(c: Place, t: Shape, slots: seq<nat>, multichannel: bool)
    requires Renames(t.val.name, slots, multichannel) == []
    ensures Finish(c, Expand(Labels([t]), slots, multichannel), slots, multichannel) ==
            if Step(c, t).Nowhere? then Labels(Plug(c, [t]))
            else Finish(Step(c, t).place, Expand(Labels([Step(c, t).tree]), slots, multichannel), slots, multichannel)
  {
    LabelsOf(t);
    ExpandOne(Labels([t])[0], slots, multichannel);
    if t.kids != [] {
      DownFinishes(c, t, slots, multichannel);
    } else {
      NoNodes();
      ClimbFinishes(c, t, slots, multichannel);
    }
  }

  lemma ExpandOne(t: TestTree, slots: seq<nat>, multichannel: bool)
    requires Renames(t.val, slots, multichannel) == []
    ensures Expand([t], slots, multichannel) == [Tree(t.val, Expand(t.kids, slots, multichannel))]
  {
    assert [t][1..] == [];
  }

  lemma DownFinishes(c: Place, t: Shape, slots: seq<nat>, multichannel: bool)
    requires t.kids != []
    ensures Finish(In(c, t.val, [], t.kids[1..]), Expand(Labels([t.kids[0]]), slots, multichannel), slots, multichannel) ==
            Finish(c, [Tree(t.val.name, Expand(Labels(t.kids), slots, multichannel))], slots, multichannel)
  {
    hide Labels, Expand;
    assert t.kids == [t.kids[0]] + t.kids[1..];
    LabelsAppend([t.kids[0]], t.kids[1..]);
    ExpandAppend(Labels([t.kids[0]]), Labels(t.kids[1..]), slots, multichannel);
    NoNodes();
    var e := Expand(Labels([t.kids[0]]), slots, multichannel);
    var f := Expand(Labels(t.kids[1..]), slots, multichannel);
    assert [] + e + f == e + f;
  }

  /** Multiplying a test leaves the finished tree the same. */
  lemma MultiplyFinishes(c: Place, t: Shape, u: Shape, clones: seq<Shape>, slots: seq<nat>, multichannel: bool)
    requires c.In? && Multiplied(Renames(t.val.name, slots, multichannel), t, u, clones)
    ensures Finish(c.(right := clones + c.right), Expand(Labels([u]), slots, multichannel), slots, multichannel) ==
            Finish(c, Expand(Labels([t]), slots, multichannel), slots, multichannel)
    ensures Renames(u.val.name, slots, multichannel) == []
  {
    var names := Renames(t.val.name, slots, multichannel);
    if names == [] {
      assert [] + c.right == c.right;
      return;
    }
    forall i | 0 <= i < |names|
      ensures Renames(names[i], slots, multichannel) == []
    {
      RenamedStays(t.val.name, slots[i], slots, multichannel);
    }
    CopiesFinish(names, c, t, u, clones, slots, multichannel);
  }

  lemma CopiesFinish(names: seq<string>, c: Place, t: Shape, u: Shape, clones: seq<Shape>, slots: seq<nat>, multichannel: bool)
    requires c.In? && names != [] && Multiplied(names, t, u, clones)
    requires names == Renames(t.val.name, slots, multichannel)
    requires forall i :: 0 <= i < |names| ==> Renames(names[i], slots, multichannel) == []
    ensures Finish(c.(right := clones + c.right), Expand(Labels([u]), slots, multichannel), slots, multichannel) ==
            Finish(c, Expand(Labels([t]), slots, multichannel), slots, multichannel)
  {
    hide Labels, Renames;
    LabelsOf(t);
    LabelsAppend([u], clones);
    LabelsAppend(clones, c.right);
    ExpandAppend(Labels([u]), Labels(clones), slots, multichannel);
    ExpandAppend(Labels(clones), Labels(c.right), slots, multichannel);
    ExpandCopies(names, Labels(t.kids), slots, multichannel);
    var e, f, r := Expand(Labels([u]), slots, multichannel), Expand(Labels(clones), slots, multichannel), Expand(Labels(c.right), slots, multichannel);
    assert Expand(Labels([t]), slots, multichannel) == e + f;
    assert Labels(c.left) + e + (f + r) == Labels(c.left) + (e + f) + r;
  }

  // ----- where a visited test is in the finished tree -----

  lemma {:induction false} PreLabels(ts: seq<Shape>)
    ensures |Pre(Labels(ts))| == |Pre(ts)|
    ensures forall i :: 0 <= i < |Pre(ts)| ==> Pre(Labels(ts))[i] == Pre(ts)[i].name
  {
    if ts != [] {
      assert Labels(ts) == [Tree(ts[0].val.name, Labels(ts[0].kids))] + Labels(ts[1..]);
      PreLabels(ts[0].kids);
      PreLabels(ts[1..]);
    }
  }

  lemma {:induction false} PreFinish(c: Place, done: seq<TestTree>, slots: seq<nat>, multichannel: bool)
    returns (p: seq<string>, q: seq<string>)
    ensures Pre(Finish(c, done, slots, multichannel)) == p + Pre(done) + q && |p| == |Before(c)|
  {
    hide Labels, Expand;
    match c
    case Top => p, q := [], [];
    case In(up, above, left, right) =>
      var a, b := Labels(left), Expand(Labels(right), slots, multichannel);
      var s := Tree(above.name, a + done + b);
      PreLabels(left);
      PreAppend(a + done, b);
      PreAppend(a, done);
      PreHead([s]);
      var p', q' := PreFinish(up, [s], slots, multichannel);
      Regroup(p', [above.name], Pre(a), Pre(done), Pre(b), q');
      p, q := p' + [above.name] + Pre(a), Pre(b) + q';
  }

  ghost predicate AllSplittable(tests: seq<string>) {
    forall test :: test in tests ==> Splittable(test)
  }

  lemma {:induction false} PreCopies(names: seq<string>, kids: seq<TestTree>)
    ensures AllSplittable(Pre(Copies(names, kids))) <==> names == [] || (AllSplittable(names) && AllSplittable(Pre(kids)))
  {
    if names != [] {
      PreCopies(names[1..], kids);
      assert Copies(names, kids)[1..] == Copies(names[1..], kids);
      PreHead(Copies(names, kids));
      assert names == [names[0]] + names[1..];
    }
  }

  /** Expansion neither hides a test string that cannot be split nor makes one. */
  lemma {:induction false} ExpandSplittable(ts: seq<TestTree>, slots: seq<nat>, multichannel: bool)
    ensures AllSplittable(Pre(Expand(ts, slots, multichannel))) <==> AllSplittable(Pre(ts))
  {
    if ts != [] {
      var t := ts[0];
      var kids, rest := Expand(t.kids, slots, multichannel), Expand(ts[1..], slots, multichannel);
      var names := Renames(t.val, slots, multichannel);
      ExpandSplittable(t.kids, slots, multichannel);
      ExpandSplittable(ts[1..], slots, multichannel);
      if names == [] {
        PreHead([Tree(t.val, kids)] + rest);
      } else {
        forall i | 0 <= i < |names|
          ensures Splittable(names[i])
        {
          ParsesRenamed(t.val, slots[i]);
        }
        PreCopies(names, kids);
        PreAppend(Copies(names, kids), rest);
      }
      PreHead(ts);
    }
  }

  // ----- the walk -----

  /** The walk stands on t at place c of the tree below root, and goal is what it will end with. */
  ghost predicate Walking(c: Place, t: Shape, root: TestChain, goal: TestTree, slots: seq<nat>, multichannel: bool)
    reads (PlaceSet(c) + NodeSet([t]))`testStr, (PlaceSet(c) + NodeSet([t]))`parent, (PlaceSet(c) + NodeSet([t]))`children
  {
    && c.In? && Placed(c, t) && Outer(c).node == root
    && Finish(c, Expand(Labels([t]), slots, multichannel), slots, multichannel) == [goal]
  }

  ghost predicate Walked(u: Shape, root: TestChain, goal: TestTree)
    reads NodeSet([u])`testStr, NodeSet([u])`parent, NodeSet([u])`children
  {
    WellFormed(u) && u.val.node == root && Labels([u]) == [goal]
  }

  lemma StartWalk(root: TestChain, t: Shape, slots: seq<nat>, multichannel: bool)
    returns (d: Place, v: Shape)
    requires WellFormed(t) && t.val.node == root
    ensures Placed(Top, t)
    ensures var goal := Tree(t.val.name, Expand(Labels(t.kids), slots, multichannel));
            var rest := Pre(t.kids) + After(Top);
            if rest == [] then Walked(t, root, goal) && |Pre(goal.kids)| == 0 == |Pre(t.kids)|
            else
              && Walking(d, v, root, goal, slots, multichannel) && v.val == rest[0]
              && |Before(d)| == 1 && PlaceSet(d) + NodeSet([v]) == NodeSet([t])
  {
    hide Labels, Expand;
    d, v := Top, t;
    NoNodes();
    LabelsOf(t);
    StepMoves(Top, t);
    PlugPlaced(Top, t);
    if t.kids != [] {
      d, v := Step(Top, t).place, Step(Top, t).tree;
      DownFinishes(Top, t, slots, multichannel);
      PlugPlaced(d, v);
      PlugNodes(d, v);
    } else {
      ExpandNothing(slots, multichannel);
    }
  }

  lemma ExpandNothing(slots: seq<nat>, multichannel: bool)
    ensures Expand([], slots, multichannel) == []
  {
  }

  /** Moving on to the successor of a test that stays as it is. */
  lemma WalkOn(c: Place, t: Shape, root: TestChain, goal: TestTree, slots: seq<nat>, multichannel: bool)
    returns (d: Place, v: Shape)
    requires Walking(c, t, root, goal, slots, multichannel) && Renames(t.val.name, slots, multichannel) == []
    ensures var rest := Pre(t.kids) + After(c);
            if rest == [] then
              && d == Top && Walked(v, root, goal) && NodeSet([v]) == PlaceSet(c) + NodeSet([t])
              && |Pre(v.kids)| == |Before(c)| == |Pre(goal.kids)|
            else
              && Walking(d, v, root, goal, slots, multichannel) && v.val == rest[0]
              && |Before(d)| == |Before(c)| + 1 && PlaceSet(d) + NodeSet([v]) == PlaceSet(c) + NodeSet([t])
  {
    hide Labels, Expand, Renames, NodeSet, PlaceSet, Linked, Distinct;
    StepFinishes(c, t, slots, multichannel);
    StepMoves(c, t);
    PlugPlaced(c, t);
    PlugOuter(c, [t]);
    PlugNodes(c, t);
    if Step(c, t).Nowhere? {
      d, v := Top, Plug(c, [t])[0];
      assert [v] == Plug(c, [t]);
      PrePlug(c, [t]);
      PreHead([t]);
      GoalSize(v, goal);
    } else {
      d, v := Step(c, t).place, Step(c, t).tree;
      PlugPlaced(d, v);
      PlugOuter(d, [v]);
      PlugNodes(d, v);
    }
  }

  lemma GoalSize(u: Shape, goal: TestTree)
    requires Labels([u]) == [goal]
    ensures |Pre([u])| == |Pre(u.kids)| + 1 && |Pre(u.kids)| == |Pre(goal.kids)|
  {
    PreHead([u]);
    PreHead([goal]);
    PreLabels([u]);
  }

  /** The visited test's string is the next one in the goal's preorder. */
  lemma VisitedInGoal(c: Place, t: Shape, root: TestChain, goal: TestTree, slots: seq<nat>, multichannel: bool)
    requires Walking(c, t, root, goal, slots, multichannel) && Renames(t.val.name, slots, multichannel) == []
    ensures 0 < |Before(c)| <= |Pre(goal.kids)| && Pre(goal.kids)[|Before(c)| - 1] == t.val.name
  {
    hide Expand, Labels, Pre, Placed, Finish;
    LabelsOf(t);
    ExpandOne(Labels([t])[0], slots, multichannel);
    var e := Expand(Labels([t]), slots, multichannel);
    PreHead(e);
    var p, q := PreFinish(c, e, slots, multichannel);
    PreHead([goal]);
    assert Pre([goal])[|p|] == Pre(e)[0] == t.val.name;
    assert Pre([goal])[|p|] == Pre(goal.kids)[|p| - 1];
  }

  lemma RenamesAre(test: string, names: seq<string>, slots: seq<nat>)
    requires Splittable(test) && PerBoard(Which(test)) && |names| == |slots|
    requires forall i :: 0 <= i < |names| ==> names[i] == Which(test) + "_TB" + Digits(slots[i]) + "@" + Env(test)
    ensures names == Renames(test, slots, false)
    ensures names != [] ==> Splittable(names[0])
  {
    if names != [] {
      ParsesRenamed(test, slots[0]);
    }
  }

  method BoardNames(which: string, env: string, slots: seq<nat>) returns (names: seq<string>)
    ensures |names| == |slots|
    ensures forall i :: 0 <= i < |slots| ==> names[i] == which + "_TB" + Digits(slots[i]) + "@" + env
  {
    names := [];
    for i := 0 to |slots|
      invariant |names| == i
      invariant forall j :: 0 <= j < i ==> names[j] == which + "_TB" + Digits(slots[j]) + "@" + env
    {
      names := names + [which + "_TB" + Digits(slots[i]) + "@" + env];
    }
  }

  /** One visit: a per-board test is multiplied in place; a test string with a second at sign fails. */
  method VisitTest(test: TestChain, slots: seq<nat>, multichannelHV: bool,
                   ghost c: Place, ghost t: Shape, ghost root: TestChain, ghost goal: TestTree)
    returns (ok: bool, ghost d: Place, ghost u: Shape)
    requires Walking(c, t, root, goal, slots, multichannelHV) && t.val.node == test
    modifies test`testStr, c.above.node`children
    ensures ok <==> Splittable(t.val.name)
    ensures Walking(d, u, root, goal, slots, multichannelHV) && u.val.node == test
    ensures Renames(u.val.name, slots, multichannelHV) == [] && (ok <==> Splittable(u.val.name))
    ensures Before(d) == Before(c)
    ensures var w := Which(t.val.name);
            var replaced := ok && !multichannelHV && slots != []
              && (w == "IV" || Lower(w) == "leakagecurrentpon" || Lower(w) == "leakagecurrentpoff");
            && u.val.name == (if replaced then w + "_TB" + Digits(slots[0]) + "@" + Env(t.val.name) else t.val.name)
            && d.In? && c.In? && |d.right| == |c.right| + if replaced then |slots| - 1 else 0
    ensures fresh(PlaceSet(d) + NodeSet([u]) - PlaceSet(c) - NodeSet([t]))
  {
    hide Finish, Expand, Labels, PlaceLinked, PlaceDistinct, Distinct, NodeSet, Linked;
    d, u := c, t;
    One(t, c.above.node);
    PlaceNodesExist(c);
    NodesExist([t]);
    var which, env := test.testStr, "17.0";
    var at := FindAt(test.testStr);
    if at < |test.testStr| {
      if '@' in test.testStr[at + 1..] {
        return false, d, u;
      }
      which, env := test.testStr[..at], test.testStr[at + 1..];
    }
    ok := true;
    if which == "IV" || Lower(which) == "leakagecurrentpon" || Lower(which) == "leakagecurrentpoff" {
      if !multichannelHV {
        var names := BoardNames(which, env, slots);
        RenamesAre(t.val.name, names, slots);
        ghost var clones;
        u, clones := test.Multiply(names, c, t);
        d := c.(right := clones + c.right);
        MultiplyFinishes(c, t, u, clones, slots, multichannelHV);
        Split(clones, c.right, null);
        One(u, null);
      }
    }
  }

  lemma Members(c: Place, t: Shape)
    ensures t.val.node in NodeSet([t]) && (c.In? ==> c.above.node in PlaceSet(c))
  {
  }

  lemma SingleTest(t: Shape, u: Shape, slots: seq<nat>, multichannel: bool)
    requires |t.kids| == 1 && AllSplittable(Pre(Labels(t.kids)))
    requires Labels([u]) == [Tree(t.val.name, Expand(Labels(t.kids), slots, multichannel))]
    ensures var test := t.kids[0].val.name;
            var x := Tree(test, Labels(t.kids[0].kids));
            Labels(t.kids) == [x] && Splittable(test) && Labels(u.kids) == Expand([x], slots, multichannel)
  {
    hide Labels, Expand, Splittable;
    LabelsOf(u);
    LabelsOf(t.kids[0]);
    assert t.kids == [t.kids[0]];
    PreHead(Labels(t.kids));
    assert Pre(Labels(t.kids))[0] == t.kids[0].val.name;
  }

  /** Walks the tree below root from one test to its successor and multiplies every per-board test
      on the way. It fails exactly when some test string cannot be split, and else ends after as
      many steps as the finished tree has tests, with the tree expanded everywhere. */
  method ExpandTests(root: TestChain, slots: seq<nat>, multichannelHV: bool, ghost t: Shape)
    returns (ok: bool, ghost u: Shape, ghost steps: nat)
    requires WellFormed(t) && t.val.node == root
    modifies NodeSet([t])`testStr, NodeSet([t])`children
    ensures ok <==> AllSplittable(Pre(Labels(t.kids)))
    ensures ok ==> WellFormed(u) && u.val.node == root && fresh(NodeSet([u]) - NodeSet([t]))
    ensures ok ==> Labels([u]) == [Tree(t.val.name, Expand(Labels(t.kids), slots, multichannelHV))]
    ensures ok ==> steps == |Pre(u.kids)|
    ensures ok && |t.kids| == 1 ==>
              var test := t.kids[0].val.name;
              var w, kids := Which(test), Expand(Labels(t.kids[0].kids), slots, multichannelHV);
              Labels(u.kids)
              == if !multichannelHV && slots != []
                    && (w == "IV" || Lower(w) == "leakagecurrentpon" || Lower(w) == "leakagecurrentpoff")
                 then seq(|slots|, i requires 0 <= i < |slots| => Tree(w + "_TB" + Digits(slots[i]) + "@" + Env(test), kids))
                 else [Tree(test, kids)]
  {
    hide Labels, Expand, Renames, NodeSet, PlaceSet, Placed, Splittable, Pre, After, Before, Finish;
    ghost var goal := Tree(t.val.name, Expand(Labels(t.kids), slots, multichannelHV));
    ghost var all := Pre(goal.kids);
    ExpandSplittable(Labels(t.kids), slots, multichannelHV);
    NodesExist([t]);
    ghost var c: Place, f := StartWalk(root, t, slots, multichannelHV);
    u, steps := t, 0;
    var test := root.Next(Top, t);
    while test != null
      invariant test != null ==>
        Walking(c, f, root, goal, slots, multichannelHV) && f.val.node == test && |Before(c)| == steps + 1
      invariant test != null ==> fresh(PlaceSet(c) + NodeSet([f]) - NodeSet([t]))
      invariant test == null ==> Walked(u, root, goal) && steps == |Pre(u.kids)|
      invariant test == null ==> fresh(NodeSet([u]) - NodeSet([t]))
      invariant steps <= |all| && AllSplittable(all[..steps]) && (test == null ==> steps == |all|)
      decreases |all| - steps
    {
      Members(c, f);
      var visited;
      ghost var d, v;
      visited, d, v := VisitTest(test, slots, multichannelHV, c, f, root, goal);
      VisitedInGoal(d, v, root, goal, slots, multichannelHV);
      if !visited {
        assert all[steps] == v.val.name;
        return false, u, steps;
      }
      PlaceNodesExist(d);
      NodesExist([v]);
      c, f := WalkOn(d, v, root, goal, slots, multichannelHV);
      test := test.Next(d, v);
      steps := steps + 1;
      if test == null {
        u := f;
      }
    }
    ok := true;
    if |t.kids| == 1 {
      SingleTest(t, u, slots, multichannelHV);
      ExpandIs(Labels(t.kids)[0], slots, multichannelHV);
    }
  }
}
