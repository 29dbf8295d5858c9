/** The linked tree of tests: each node knows its parent and its children. */
module TestChains {
  import opened Options
  import opened Trees
  import opened TestSyntax

  // ----- the shape of a linked tree -----

  datatype Item = Item(node: TestChain, name: string)

  type Shape = Tree<Item>
  type Place = Ctx<Item>

  ghost function Labels(ts: seq<Shape>): (r: seq<TestTree>)
    ensures |r| == |ts|
  {
    Map(ts, (i: Item) => i.name)
  }

  ghost function NodeSet(ts: seq<Shape>): set<TestChain> {
    if ts == [] then {} else {ts[0].val.node} + NodeSet(ts[0].kids) + NodeSet(ts[1..])
  }

  ghost function Roots(ts: seq<Shape>): (r: seq<TestChain>)
    ensures |r| == |ts|
    ensures forall i :: 0 <= i < |ts| ==> r[i] == ts[i].val.node
  {
    seq(|ts|, i requires 0 <= i < |ts| => ts[i].val.node)
  }

  /** No node occurs twice. */
  ghost predicate Distinct(ts: seq<Shape>) {
    ts == [] ||
    (ts[0].val.node !in NodeSet(ts[0].kids) + NodeSet(ts[1..]) &&
     NodeSet(ts[0].kids) !! NodeSet(ts[1..]) &&
     Distinct(ts[0].kids) && Distinct(ts[1..]))
  }

  /** The fields of the nodes are what the shape says, and parent is the node above. */
  ghost predicate Linked(ts: seq<Shape>, parent: TestChain?)
    reads NodeSet(ts)`testStr, NodeSet(ts)`parent, NodeSet(ts)`children
  {
    ts == [] ||
    (ts[0].val.node.testStr == ts[0].val.name &&
     ts[0].val.node.parent == parent &&
     ts[0].val.node.children == Roots(ts[0].kids) &&
     Linked(ts[0].kids, ts[0].val.node) && Linked(ts[1..], parent))
  }

  lemma {:induction false} SplitNodes(a: seq<Shape>, b: seq<Shape>)
    ensures NodeSet(a + b) == NodeSet(a) + NodeSet(b)
    ensures Roots(a + b) == Roots(a) + Roots(b)
  {
    if a == [] {
      assert a + b == b;
    } else {
      assert (a + b)[1..] == a[1..] + b;
      SplitNodes(a[1..], b);
    }
  }

  lemma {:induction false} Split(a: seq<Shape>, b: seq<Shape>, parent: TestChain?)
    ensures NodeSet(a + b) == NodeSet(a) + NodeSet(b)
    ensures Roots(a + b) == Roots(a) + Roots(b)
    ensures Linked(a + b, parent) <==> Linked(a, parent) && Linked(b, parent)
    ensures Distinct(a + b) <==> Distinct(a) && Distinct(b) && NodeSet(a) !! NodeSet(b)
  {
    SplitNodes(a, b);
    hide Roots;
    if a == [] {
      assert a + b == b;
    } else {
      assert (a + b)[1..] == a[1..] + b && (a + b)[0] == a[0];
      Split(a[1..], b, parent);
    }
  }

  lemma {:induction false} RootsAreNodes(ts: seq<Shape>)
    ensures forall i :: 0 <= i < |ts| ==> ts[i].val.node in NodeSet(ts)
  {
    if ts != [] {
      RootsAreNodes(ts[1..]);
      assert forall i :: 0 < i < |ts| ==> ts[i] == ts[1..][i - 1];
    }
  }

  lemma One(t: Shape, parent: TestChain?)
    ensures NodeSet([t]) == {t.val.node} + NodeSet(t.kids)
    ensures Distinct([t]) <==> t.val.node !in NodeSet(t.kids) && Distinct(t.kids)
    ensures Linked([t], parent) <==>
              t.val.node.testStr == t.val.name && t.val.node.parent == parent &&
              t.val.node.children == Roots(t.kids) && Linked(t.kids, t.val.node)
  {
    assert [t][1..] == [];
  }

  // ----- the same for what surrounds a place -----

  ghost function PlaceSet(c: Place): set<TestChain> {
    match c
    case Top => {}
    case In(up, above, left, right) => {above.node} + NodeSet(left) + NodeSet(right) + PlaceSet(up)
  }

  ghost predicate PlaceDistinct(c: Place) {
    match c
    case Top => true
    case In(up, above, left, right) =>
      && above.node !in NodeSet(left) + NodeSet(right) + PlaceSet(up)
      && NodeSet(left) !! NodeSet(right) && NodeSet(left) + NodeSet(right) !! PlaceSet(up)
      && Distinct(left) && Distinct(right) && PlaceDistinct(up)
  }

  ghost function ParentAt(c: Place): TestChain? {
    if c.Top? then null else c.above.node
  }

  ghost predicate PlaceLinked(c: Place, hole: seq<TestChain>)
    reads PlaceSet(c)`testStr, PlaceSet(c)`parent, PlaceSet(c)`children
  {
    match c
    case Top => true
    case In(up, above, left, right) =>
      && above.node.testStr == above.name
      && above.node.parent == ParentAt(up)
      && above.node.children == Roots(left) + hole + Roots(right)
      && Linked(left, above.node) && Linked(right, above.node)
      && PlaceLinked(up, [above.node])
  }

  /** The subtree t is at place c of a well-formed linked tree. */
  ghost predicate Placed(c: Place, t: Shape)
    reads (PlaceSet(c) + NodeSet([t]))`testStr, (PlaceSet(c) + NodeSet([t]))`parent, (PlaceSet(c) + NodeSet([t]))`children
  {
    && PlaceLinked(c, [t.val.node]) && Linked([t], ParentAt(c))
    && PlaceDistinct(c) && Distinct([t]) && PlaceSet(c) !! NodeSet([t])
  }

  ghost predicate WellFormed(t: Shape)
    reads NodeSet([t])`testStr, NodeSet([t])`parent, NodeSet([t])`children
  {
    Linked([t], null) && Distinct([t])
  }

  lemma {:induction false} PlugNodes(c: Place, t: Shape)
    ensures NodeSet(Plug(c, [t])) == PlaceSet(c) + NodeSet([t])
  {
    match c
    case Top =>
    case In(up, above, left, right) =>
      Split(left + [t], right, above.node);
      Split(left, [t], above.node);
      PlugNodes(up, Tree(above, left + [t] + right));
  }

  lemma UpLinked(c: Place, t: Shape)
    requires c.In?
    ensures var s := Tree(c.above, c.left + [t] + c.right);
            PlaceLinked(c, [t.val.node]) && Linked([t], c.above.node) <==>
            PlaceLinked(c.up, [c.above.node]) && Linked([s], ParentAt(c.up))
  {
    Split(c.left + [t], c.right, c.above.node);
    Split(c.left, [t], c.above.node);
    One(Tree(c.above, c.left + [t] + c.right), ParentAt(c.up));
  }

  lemma UpDistinct(c: Place, t: Shape)
    requires c.In?
    ensures var s := Tree(c.above, c.left + [t] + c.right);
            PlaceDistinct(c) && Distinct([t]) && PlaceSet(c) !! NodeSet([t]) <==>
            PlaceDistinct(c.up) && Distinct([s]) && PlaceSet(c.up) !! NodeSet([s])
  {
    Split(c.left + [t], c.right, c.above.node);
    Split(c.left, [t], c.above.node);
    One(Tree(c.above, c.left + [t] + c.right), null);
  }

  /** A tree is well formed exactly when each of its subtrees is properly placed in it. */
  lemma {:induction false} PlugPlaced(c: Place, t: Shape)
    ensures Linked(Plug(c, [t]), null) && Distinct(Plug(c, [t])) <==> Placed(c, t)
  {
    match c
    case Top =>
    case In(up, above, left, right) =>
      UpLinked(c, t);
      UpDistinct(c, t);
      PlugPlaced(up, Tree(above, left + [t] + right));
  }

  // ----- walking -----

  /** A parameter directory copied for a test, and the number in the copy's name. */
  datatype Copy = Copy(from: string, to: string, number: nat)

  ghost function First(items: seq<Item>): TestChain? {
    if items == [] then null else items[0].node
  }

  class TestChain {
    var testStr: string
    var parent: TestChain?
    var children: seq<TestChain>
    /** The parameter directory of each slot, once an agente has set it. */
    var parameterDir: Option<seq<string>>
    /** The directory copies made for this test, per slot. */
    var copies: map<nat, Copy>

    constructor (test: string, parent: TestChain?)
      ensures testStr == test && this.parent == parent && children == []
      ensures parameterDir == None && copies == map[]
    {
      testStr := test;
      this.parent := parent;
      children := [];
      parameterDir := None;
      copies := map[];
    }

    /** The successor of a node is the next node in preorder, or null behind the last one. */
    method Next(ghost c: Place, ghost t: Shape) returns (r: TestChain?)
      requires Placed(c, t) && t.val.node == this
      ensures r == First(Pre(t.kids) + After(c))
    {
      if |children| > 0 {
        return children[0];
      } else if parent != null {
        ChildHere(c, this);
        r := parent.UpNext(this, c);
        return;
      }
      return null;
    }

    /** The node behind a child and all that is below it; null for what is not a child. */
    method UpNext(child: TestChain, ghost c: Place) returns (r: TestChain?)
      requires child in children ==>
        && c.In? && c.above.node == this
        && PlaceLinked(c, [child]) && PlaceDistinct(c) && child !in PlaceSet(c)
      ensures r == if child in children then First(After(c)) else null
      decreases c
    {
      if child !in children {
        return null;
      }
      var found := false;
      ghost var at := |c.left|;
      RootsAreNodes(c.left);
      RootsAreNodes(c.right);
      assert forall i :: 0 <= i < |children| ==> (children[i] == child <==> i == at);
      for i := 0 to |children|
        invariant found == (i > at) && i <= at + 1
      {
        if found {
          PreHead(c.right);
          return children[i];
        }
        if children[i] == child {
          found := true;
        }
      }
      if parent != null {
        ChildHere(c.up, this);
        r := parent.UpNext(this, c.up);
        return;
      }
      return null;
    }

    /** The printed form of the tree below this node. */
    method Repr(ghost t: Shape, ghost above: TestChain?) returns (str: string)
      requires Linked([t], above) && t.val.node == this
      ensures str == Print(Labels([t])[0])
      decreases t
    {
      hide NodeSet, Linked, Distinct, Labels, Print, Join, StillToJoin;
      One(t, above);
      LabelsOf(t);
      NodesExist(t.kids);
      PrintCases(Labels([t])[0]);
      str := testStr;
      if |children| > 1 {
        str := str + ">{";
        ghost var head := str;
        for i := 0 to |children|
          invariant Linked(t.kids, this)
          invariant str + StillToJoin(Labels(t.kids), i) == head + Join(Labels(t.kids))
        {
          JoinStep(str, Labels(t.kids), i);
          if i > 0 {
            str := str + ",";
          }
          LinkedAt(t.kids, i, this);
          var s := children[i].Repr(t.kids[i], this);
          str := str + s;
        }
        str := str + "}";
      } else if |children| == 1 {
        LinkedAt(t.kids, 0, this);
        str := str + ">";
        var s := children[0].Repr(t.kids[0], this);
        str := str + s;
      }
    }

    /** A deep copy below a new parent: new nodes, same labels, same shape. */
    method Clone(newParent: TestChain?, ghost t: Shape, ghost above: TestChain?)
      returns (c: TestChain, ghost u: Shape)
      requires Linked([t], above) && t.val.node == this
      ensures fresh(NodeSet([u])) && u.val.node == c
      ensures Linked([u], newParent) && Distinct([u])
      ensures Labels([u]) == Labels([t])
      decreases t
    {
      hide NodeSet, Linked, Distinct, Labels;
      One(t, above);
      NodesExist(t.kids);
      c := new TestChain(testStr, newParent);
      c.children := [];
      NoNodes();
      ghost var us: seq<Shape> := [];
      for i := 0 to |children|
        invariant Linked(t.kids, this)
        invariant fresh(c) && c.testStr == testStr && c.parent == newParent
        invariant fresh(NodeSet(us)) && c !in NodeSet(us) && Distinct(us)
        invariant Linked(us, c) && c.children == Roots(us)
        invariant Labels(us) == Labels(t.kids[..i])
      {
        LinkedAt(t.kids, i, this);
        NodesExist(us);
        var d, u' := children[i].Clone(c, t.kids[i], this);
        c.children := c.children + [d];
        Split(us, [u'], c);
        assert t.kids[..i + 1] == t.kids[..i] + [t.kids[i]];
        LabelsAppend(us, [u']);
        LabelsAppend(t.kids[..i], [t.kids[i]]);
        us := us + [u'];
      }
      assert t.kids[..|children|] == t.kids;
      u := Tree(Item(c, testStr), us);
      One(u, newParent);
      LabelsOf(u);
      LabelsOf(t);
    }

    /** Replaces this node by one copy per name: itself under the first name, clones under the others. */
    method Multiply(names: seq<string>, ghost c: Place, ghost t: Shape) returns (ghost u: Shape, ghost clones: seq<Shape>)
      requires c.In? && Placed(c, t) && t.val.node == this
      modifies this`testStr, parent`children
      ensures Multiplied(names, t, u, clones) && Placed(c.(right := clones + c.right), u)
      ensures fresh(NodeSet(clones))
    {
      if |names| < 1 {
        assert [] + c.right == c.right;
        return t, [];
      }
      One(t, c.above.node);
      ChildHere(c, this);
      u, clones := parent.MultiplyChild(this, names, c, t);
    }

    static lemma ChildHere(c: Place, child: TestChain)
      requires c.In? && PlaceLinked(c, [child])
      ensures child in c.above.node.children
    {
      assert c.above.node.children[|c.left|] == child;
    }

    /** Without names, or for what is not a child, nothing happens. */
    method MultiplyChild(child: TestChain, names: seq<string>, ghost c: Place, ghost t: Shape)
      returns (ghost u: Shape, ghost clones: seq<Shape>)
      requires names != [] && child in children ==>
        c.In? && c.above.node == this && Placed(c, t) && t.val.node == child
      modifies child`testStr, this`children
      ensures names == [] || child !in old(children) ==>
        children == old(children) && child.testStr == old(child.testStr) && u == t && clones == []
      ensures names != [] && child in old(children) ==>
        Multiplied(names, t, u, clones) && Placed(c.(right := clones + c.right), u)
      ensures fresh(NodeSet(clones))
    {
      hide Placed, Multiplied;
      if |names| < 1 {
        return t, [];
      }
      if child !in children {
        return t, [];
      }
      u, clones := MultiplyFound(child, names, c, t);
    }

    method MultiplyFound(child: TestChain, names: seq<string>, ghost c: Place, ghost t: Shape)
      returns (ghost u: Shape, ghost clones: seq<Shape>)
      requires c.In? && c.above.node == this && Placed(c, t) && t.val.node == child
      requires names != []
      modifies child`testStr, this`children
      ensures Multiplied(names, t, u, clones) && Placed(c.(right := clones + c.right), u)
      ensures fresh(NodeSet(clones))
    {
      hide NodeSet, Linked, Distinct, Labels, PlaceDistinct;
      u, clones := Tree(Item(child, names[0]), t.kids), [];
      var index := IndexOf(child, c, t);
      Rename(children[index], names[0], c, t);
      NoNodes();
      LabelsOf(t);
      LabelsOf(u);
      assert [] + c.right == c.right && [u] + clones == [u];
      assert Labels([u] + clones) == Copies(names[..1], Labels(t.kids));
      for i := 1 to |names|
        invariant |clones| == i - 1 && fresh(NodeSet(clones))
        invariant index == |c.left| && |children| == |c.left| + 1 + |clones| + |c.right|
        invariant children[index] == child
        invariant Placed(c.(right := clones + c.right), u)
        invariant Labels([u] + clones) == Copies(names[..i], Labels(t.kids))
      {
        ghost var w := InsertClone(children[index], index + i, names[i], c.(right := clones + c.right), u);
        assert (clones + c.right)[..i - 1] + [w] + (clones + c.right)[i - 1..] == (clones + [w]) + c.right;
        Split(clones, [w], null);
        assert [u] + (clones + [w]) == ([u] + clones) + [w];
        LabelsAppend([u] + clones, [w]);
        assert Copies(names[..i + 1], Labels(t.kids)) == Copies(names[..i], Labels(t.kids)) + Labels([w]);
        clones := clones + [w];
      }
      assert names[..|names|] == names;
    }

    method IndexOf(child: TestChain, ghost c: Place, ghost t: Shape) returns (index: nat)
      requires c.In? && c.above.node == this && Placed(c, t) && t.val.node == child
      ensures index == |c.left| < |children| && children[index] == child && Placed(c, t)
    {
      NodesExist([t]);
      PlaceNodesExist(c);
      RootsAreNodes(c.left);
      RootsAreNodes(c.right);
      assert forall i :: 0 <= i < |children| ==> (children[i] == child <==> i == |c.left|);
      index := 0;
      for i := 0 to |children|
        invariant i <= |c.left|
      {
        if children[i] == child {
          return i;
        }
      }
    }

    /** Gives a placed node another test string. */
    static method Rename(node: TestChain, name: string, ghost c: Place, ghost t: Shape)
      requires Placed(c, t) && t.val.node == node
      modifies node`testStr
      ensures Placed(c, Tree(Item(node, name), t.kids))
    {
      One(t, ParentAt(c));
      node.testStr := name;
      One(Tree(Item(node, name), t.kids), ParentAt(c));
    }

    /** Inserts a clone of a child, under another name, to the right of the child. */
    method InsertClone(child: TestChain, at: nat, name: string, ghost c: Place, ghost t: Shape)
      returns (ghost w: Shape)
      requires c.In? && c.above.node == this && Placed(c, t) && t.val.node == child
      requires |c.left| < at <= |children|
      modifies `children
      ensures var k := at - |c.left| - 1;
              Placed(c.(right := c.right[..k] + [w] + c.right[k..]), t)
      ensures Labels([w]) == [Tree(name, Labels(t.kids))] && fresh(NodeSet([w]))
      ensures |children| == old(|children|) + 1 && children[|c.left|] == child
    {
      hide NodeSet, Linked, Distinct, Labels, Roots;
      ghost var k := at - |c.left| - 1;
      PlaceNodesExist(c);
      NodesExist([t]);
      var d;
      d, w := NamedClone(child, name, c, t);
      InsertAt(Roots(c.left), child, Roots(c.right), k, d);
      children := children[..at] + [d] + children[at..];
      assert Linked(c.left, this) && Linked(c.right, this) && PlaceLinked(c.up, [this]);
      assert Linked([w], this) && Linked([t], this);
      InsertRight(c, k, w);
    }

    method NamedClone(child: TestChain, name: string, ghost c: Place, ghost t: Shape)
      returns (d: TestChain, ghost w: Shape)
      requires c.In? && c.above.node == this && Placed(c, t) && t.val.node == child
      ensures fresh(NodeSet([w])) && w.val.node == d && Linked([w], this) && Distinct([w])
      ensures Labels([w]) == [Tree(name, Labels(t.kids))]
      ensures Placed(c, t)
    {
      hide Labels, PlaceLinked, PlaceDistinct;
      NodesExist([t]);
      PlaceNodesExist(c);
      ghost var v;
      d, v := child.Clone(this, t, this);
      One(v, this);
      d.testStr := name;
      w := Tree(Item(d, name), v.kids);
      One(w, this);
      LabelsOf(v);
      LabelsOf(w);
      LabelsOf(t);
    }
  }

  lemma {:induction false} PlaceNodesExist(c: Place)
    ensures forall n :: n in PlaceSet(c) ==> allocated(n)
  {
    if c.In? {
      NodesExist(c.left);
      NodesExist(c.right);
      PlaceNodesExist(c.up);
    }
  }

  lemma InsertAt<A>(left: seq<A>, x: A, right: seq<A>, k: nat, d: A)
    requires k <= |right|
    ensures var s := left + [x] + right;
            var at := |left| + 1 + k;
            s[..at] + [d] + s[at..] == left + [x] + (right[..k] + [d] + right[k..])
  {
  }

  lemma InsertRight(c: Place, k: nat, w: Shape)
    requires c.In? && k <= |c.right|
    requires Linked([w], c.above.node) && Distinct([w]) && NodeSet([w]) !! PlaceSet(c)
    ensures var r := c.right[..k] + [w] + c.right[k..];
            && Roots(r) == Roots(c.right)[..k] + [w.val.node] + Roots(c.right)[k..]
            && NodeSet(r) == NodeSet(c.right) + NodeSet([w])
            && (Distinct(c.right) ==> Distinct(r))
            && (Linked(c.right, c.above.node) ==> Linked(r, c.above.node))
  {
    var a, b := c.right[..k], c.right[k..];
    assert a + b == c.right;
    Split(a, b, c.above.node);
    Split(a, [w], c.above.node);
    Split(a + [w], b, c.above.node);
  }

  /** One copy of a subtree per name. */
  function Copies(names: seq<string>, kids: seq<TestTree>): (r: seq<TestTree>)
    ensures |r| == |names|
  {
    seq(|names|, i requires 0 <= i < |names| => Tree(names[i], kids))
  }

  /** t has been renamed in place to u and copied to clones, one copy per name. */
  ghost predicate Multiplied(names: seq<string>, t: Shape, u: Shape, clones: seq<Shape>) {
    if names == [] then u == t && clones == []
    else
      && u == Tree(Item(t.val.node, names[0]), t.kids)
      && Labels([u] + clones) == Copies(names, Labels(t.kids))
  }

  /** What is missing of the joined text once i trees have been printed. */
  function StillToJoin(ts: seq<TestTree>, i: nat): string
    requires i <= |ts|
  {
    if 0 < i < |ts| then "," + Join(ts[i..]) else Join(ts[i..])
  }

  lemma PrintCases(t: TestTree)
    ensures |t.kids| > 1 ==> Print(t) == t.val + ">{" + Join(t.kids) + "}"
    ensures |t.kids| == 1 ==> Print(t) == t.val + ">" + Print(t.kids[0])
    ensures |t.kids| == 0 ==> Print(t) == t.val
    ensures StillToJoin(t.kids, 0) == Join(t.kids) && StillToJoin(t.kids, |t.kids|) == ""
  {
  }

  lemma JoinStep(str: string, ts: seq<TestTree>, i: nat)
    requires i < |ts|
    ensures str + StillToJoin(ts, i) ==
            (if i > 0 then str + "," else str) + Print(ts[i]) + StillToJoin(ts, i + 1)
  {
    assert ts[i..][1..] == ts[i + 1..];
  }

  lemma {:induction false} NodesExist(ts: seq<Shape>)
    ensures forall n :: n in NodeSet(ts) ==> allocated(n)
  {
    if ts != [] {
      NodesExist(ts[0].kids);
      NodesExist(ts[1..]);
    }
  }

  lemma NoNodes()
    ensures NodeSet([]) == {} && Distinct([]) && Labels([]) == []
    ensures forall p: TestChain? :: Linked([], p)
  {
  }

  lemma LabelsAppend(a: seq<Shape>, b: seq<Shape>)
    ensures Labels(a + b) == Labels(a) + Labels(b)
  {
    MapAppend(a, b, (i: Item) => i.name);
  }

  lemma LabelsOf(t: Shape)
    ensures Labels([t]) == [Tree(t.val.name, Labels(t.kids))]
  {
    assert [t][1..] == [];
  }

  lemma {:induction false} LinkedAt(ts: seq<Shape>, i: nat, parent: TestChain?)
    requires i < |ts| && Linked(ts, parent)
    ensures Linked([ts[i]], parent) && NodeSet([ts[i]]) <= NodeSet(ts)
    ensures Labels([ts[i]]) == [Labels(ts)[i]]
  {
    One(ts[0], parent);
    if i > 0 {
      LinkedAt(ts[1..], i - 1, parent);
    }
  }
}
