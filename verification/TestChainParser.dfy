/** The parser that builds linked test nodes below a cursor shared by all parsing steps. */
module TestChainParser {
  import opened Options
  import opened Trees
  import opened TestSyntax
  import opened TestChains

  // ----- a chain of nodes under construction -----

  function Front<T>(s: seq<T>): seq<T> {
    if s == [] then [] else s[..|s| - 1]
  }

  /** Nodes that are children of one another; the last one's children are left open. */
  ghost predicate Backbone(ns: seq<TestChain>, labels: seq<string>, above: TestChain?)
    reads ns`testStr, ns`parent, Front(ns)`children
    ensures Backbone(ns, labels, above) ==> |ns| == |labels| > 0
  {
    && |ns| == |labels| && ns != []
    && (forall i {:trigger ns[i]} :: 0 <= i < |ns| ==> ns[i].testStr == labels[i])
    && ns[0].parent == above
    && (forall i, j {:trigger ns[i], ns[j]} :: 0 <= i < j < |ns| && j == i + 1 ==>
          assert Front(ns)[i] == ns[i];
          ns[j].parent == ns[i] && ns[i].children == [ns[j]])
    && (forall i, j :: 0 <= i < j < |ns| ==> ns[i] != ns[j])
  }

  /** The nodes of a chain, from the first to the one the cursor is on, whose children are below. */
  ghost predicate Chained(ns: seq<TestChain>, labels: seq<string>, above: TestChain?, below: seq<TestChain>)
    reads ns
    ensures Chained(ns, labels, above, below) ==> |ns| == |labels| > 0
  {
    && Backbone(ns, labels, above) && ns[|ns| - 1].children == below
    && ns[|ns| - 1] !in Front(ns)
  }

  ghost function Hang(ns: seq<TestChain>, labels: seq<string>, kids: seq<Shape>): seq<Shape>
    requires |ns| == |labels|
  {
    if ns == [] then kids else [Tree(Item(ns[0], labels[0]), Hang(ns[1..], labels[1..], kids))]
  }

  /** A node from which every later node in preorder is a descendant: the last root, its last child, and so on. */
  ghost predicate OnSpine(ts: seq<Shape>, n: TestChain) {
    ts != [] && (ts[|ts| - 1].val.node == n || OnSpine(ts[|ts| - 1].kids, n))
  }

  lemma RestStep(s: string, pos: nat)
    requires pos <= |s|
    ensures var q := Skip(s, pos, '>');
            var e := RunEnd(s, q);
            ReadChainRest(s, pos) ==
            if e == q then ChainRead([], pos)
            else ChainRead([s[q..e]] + ReadChainRest(s, e).labels, ReadChainRest(s, e).end)
  {
  }

  lemma ChainTail(ns: seq<TestChain>, labels: seq<string>, above: TestChain?, below: seq<TestChain>)
    requires Chained(ns, labels, above, below) && |ns| > 1
    ensures Chained(ns[1..], labels[1..], ns[0], below)
    ensures ns[0] !in ns[1..] && ns[0].children == [ns[1]]
  {
    var ms, ls := ns[1..], labels[1..];
    assert forall i {:trigger ms[i]} :: 0 <= i < |ms| ==> ms[i] == ns[i + 1] && ls[i] == labels[i + 1];
  }

  lemma ChainExtended(ns: seq<TestChain>, labels: seq<string>, above: TestChain?, n: TestChain, name: string)
    requires Chained(ns, labels, above, [n]) && n !in ns
    requires Chained([n], [name], ns[|ns| - 1], [])
    ensures Chained(ns + [n], labels + [name], above, [])
  {
    assert [n][0] == n;
  }

  lemma {:induction false} ChainHangs(ns: seq<TestChain>, labels: seq<string>, above: TestChain?, kids: seq<Shape>)
    requires Chained(ns, labels, above, Roots(kids))
    requires Linked(kids, ns[|ns| - 1]) && Distinct(kids)
    requires forall n :: n in ns ==> n !in NodeSet(kids)
    ensures var ts := Hang(ns, labels, kids);
            && |ts| == 1 && ts[0].val.node == ns[0]
            && Linked(ts, above) && Distinct(ts)
            && NodeSet(ts) == (set n | n in ns) + NodeSet(kids)
            && Labels(ts) == Nest(labels, Labels(kids))
            && OnSpine(ts, ns[|ns| - 1])
  {
    hide NodeSet, Linked, Distinct, Labels;
    var ts := Hang(ns, labels, kids);
    if |ns| > 1 {
      ChainTail(ns, labels, above, Roots(kids));
      ChainHangs(ns[1..], labels[1..], ns[0], kids);
      assert Roots(ts[0].kids) == [ns[1]];
    } else {
      assert ns[1..] == [] && Hang([], labels[1..], kids) == kids;
    }
    assert ns == [ns[0]] + ns[1..];
    One(ts[0], above);
    LabelsOf(ts[0]);
  }

  lemma ListStart(s: string, pos: nat)
    requires pos <= |s|
    ensures var x := ReadTree(s, pos);
            ReadList(s, pos)
            == if x.NoTree? then ListRead([], -1)
               else ListRead([x.tree] + ReadListRest(s, x.end).trees, ReadListRest(s, x.end).end)
  {
  }

  lemma ListStep(s: string, pos: nat)
    requires pos <= |s|
    ensures var x := ReadTree(s, Skip(s, pos, ','));
            ReadListRest(s, pos)
            == if x.NoTree? then ListRead([], pos)
               else ListRead([x.tree] + ReadListRest(s, x.end).trees, ReadListRest(s, x.end).end)
  {
  }

  class Parser {
    /** The cursor: the node that the next test becomes a child of. */
    var parent: TestChain

    constructor (cursor: TestChain)
      ensures parent == cursor
    {
      parent := cursor;
    }

    /** Reads one label and attaches it as the cursor's last child, which the cursor moves to. */
    method ParseTest(text: string, pos: nat) returns (newPos: int)
      requires pos <= |text|
      modifies this, parent`children
      ensures var e := RunEnd(text, pos);
              if e == pos then newPos == -1 && parent == old(parent) && parent.children == old(parent.children)
              else newPos == e && fresh(parent) && Chained([parent], [text[pos..e]], old(parent), [])
                   && old(parent).children == old(parent.children) + [parent]
    {
      newPos := pos;
      while newPos < |text|
        invariant pos <= newPos <= |text| && RunEnd(text, newPos) == RunEnd(text, pos)
      {
        if !Delim(text[newPos]) {
          newPos := newPos + 1;
        } else {
          break;
        }
      }
      if pos == newPos {
        return -1;
      }
      var newParent := new TestChain(text[pos..newPos], parent);
      parent.children := parent.children + [newParent];
      parent := newParent;
    }

    /** Reads a chain of tests. The cursor ends on the last of them. */
    method ParseChain(text: string, pos: nat) returns (newPos: int, ghost ns: seq<TestChain>)
      requires pos <= |text|
      modifies this, parent`children
      ensures var e := RunEnd(text, pos);
              if e == pos then newPos == -1 && parent == old(parent) && parent.children == old(parent.children)
              else
                && newPos == ReadChainRest(text, e).end
                && Chained(ns, [text[pos..e]] + ReadChainRest(text, e).labels, old(parent), [])
                && fresh(ns) && parent == ns[|ns| - 1]
                && old(parent).children == old(parent.children) + [ns[0]]
    {
      hide Chained, ReadChainRest, RunEnd;
      ns := [];
      newPos := ParseTest(text, pos);
      var p := pos;
      if newPos >= 0 {
        p := newPos;
      } else {
        return -1, [];
      }
      ns := [parent];
      ghost var e := newPos;
      ghost var labels := [text[pos..newPos]];
      ghost var rest := ReadChainRest(text, newPos);
      ghost var all := labels + rest.labels;
      while newPos >= 0
        invariant newPos == -1 || pos < newPos <= |text|
        invariant Chained(ns, labels, old(parent), []) && parent == ns[|ns| - 1] && fresh(ns)
        invariant old(parent).children == old(parent.children) + [ns[0]]
        invariant labels + rest.labels == all && rest.end == ReadChainRest(text, e).end
        invariant if newPos >= 0 then rest == ReadChainRest(text, newPos) else rest == ChainRead([], p)
        decreases if newPos >= 0 then |text| - newPos + 1 else 0
      {
        p := newPos;
        RestStep(text, p);
        newPos := ParseNext(text, p, ns, labels, old(parent));
        if newPos >= 0 {
          ghost var q := Skip(text, p, '>');
          ns := ns + [parent];
          rest := ReadChainRest(text, newPos);
          assert labels + ([text[q..newPos]] + rest.labels) == (labels + [text[q..newPos]]) + rest.labels;
          labels := labels + [text[q..newPos]];
        }
      }
      assert labels + [] == labels;
      newPos := p;
    }

    /** Reads one more test of a chain, behind an optional angle bracket. */
    method ParseNext(text: string, pos: nat, ghost ns: seq<TestChain>, ghost labels: seq<string>, ghost above: TestChain)
      returns (newPos: int)
      requires pos <= |text| && Chained(ns, labels, above, []) && parent == ns[|ns| - 1]
      modifies this, parent`children
      ensures var q := Skip(text, pos, '>');
              var e := RunEnd(text, q);
              if e == q then newPos == -1 && parent == old(parent) && parent.children == old(parent.children)
              else newPos == e && fresh(parent) && Chained(ns + [parent], labels + [text[q..e]], above, [])
      ensures newPos < 0 ==> Chained(ns, labels, above, [])
    {
      hide Backbone, RunEnd;
      newPos := pos;
      if pos < |text| && text[pos] == '>' {
        newPos := newPos + 1;
      }
      ghost var q := newPos;
      ghost var last := parent;
      newPos := ParseTest(text, newPos);
      if newPos >= 0 {
        assert last.children == [parent];
        ChainExtended(ns, labels, above, parent, text[q..newPos]);
      }
    }

    /** Reads a chain and the bracket that may follow it, as one new child of the cursor.
        The cursor ends somewhere on the right spine of what was attached. */
    method ParseTree(text: string, pos: nat) returns (newPos: int, ghost us: seq<Shape>)
      requires pos <= |text|
      modifies this, parent`children
      ensures match ReadTree(text, pos)
              case NoTree => newPos == -1 && us == [] && parent == old(parent)
              case TreeRead(t, e) => newPos == e && Labels(us) == [t] && OnSpine(us, parent)
      ensures Linked(us, old(parent)) && Distinct(us) && fresh(NodeSet(us))
      ensures old(parent).children == old(parent.children) + Roots(us)
      decreases |text| - pos, 0
    {
      hide Chained, Labels, NodeSet, Linked, Distinct, ReadChainRest, ReadBracket, RunEnd;
      ghost var ns, kids;
      us := [];
      newPos, ns := ParseChain(text, pos);
      var p := pos;
      if newPos >= 0 {
        p := newPos;
      } else {
        NoNodes();
        return;
      }
      if p < |text| && text[p] == '>' {
        newPos := newPos + 1;
      }
      ghost var labels := [text[pos..RunEnd(text, pos)]] + ReadChainRest(text, RunEnd(text, pos)).labels;
      newPos, kids := ParseBracket(text, newPos, ns, labels, old(parent));
      ChainHangs(ns, labels, old(parent), kids);
      us := Hang(ns, labels, kids);
      if newPos >= 0 {
        p := newPos;
      }
      newPos := p;
    }

    /** Reads a list in curly brackets below the cursor, which is on the last node of a chain. */
    method ParseBracket(text: string, pos: nat,
                        ghost ns: seq<TestChain>, ghost labels: seq<string>, ghost above: TestChain)
      returns (newPos: int, ghost kids: seq<Shape>)
      requires pos <= |text| && Chained(ns, labels, above, []) && parent == ns[|ns| - 1]
      modifies this, parent`children
      ensures newPos == ReadBracket(text, pos).end && Labels(kids) == ReadBracket(text, pos).trees
      ensures parent == old(parent) && Chained(ns, labels, above, Roots(kids))
      ensures Linked(kids, parent) && Distinct(kids) && fresh(NodeSet(kids))
      decreases |text| - pos, 2
    {
      hide Backbone, Labels, NodeSet, Linked, Distinct, ReadList;
      kids := [];
      NoNodes();
      newPos := pos;
      if newPos < |text| && text[newPos] == '{' {
        newPos := newPos + 1;
      } else {
        return -1, [];
      }
      var p := newPos;
      newPos, kids := ParseList(text, p);
      if newPos >= 0 {
        p := newPos;
      }
      if p < |text| && text[p] == '}' {
        p := p + 1;
      } else {
        return -1, kids;
      }
      return p, kids;
    }

    /** Reads one or more trees, all of them children of the cursor, which is back there at the end. */
    method ParseList(text: string, pos: nat) returns (newPos: int, ghost us: seq<Shape>)
      requires pos <= |text|
      modifies this, parent`children
      ensures newPos == ReadList(text, pos).end && Labels(us) == ReadList(text, pos).trees
      ensures Linked(us, parent) && Distinct(us) && fresh(NodeSet(us))
      ensures parent == old(parent) && parent.children == old(parent.children) + Roots(us)
      decreases |text| - pos, 1
    {
      hide Labels, NodeSet, Linked, Distinct, ReadTree, OnSpine, ReadList, ReadListRest;
      ListStart(text, pos);
      var saveParent := parent;
      newPos, us := ParseTree(text, pos);
      var p := pos;
      if newPos >= 0 {
        p := newPos;
      } else {
        NoNodes();
        return -1, [];
      }
      ghost var rest := ReadListRest(text, newPos);
      ghost var all := Labels(us) + rest.trees;
      while newPos >= 0
        invariant newPos == -1 || pos < newPos <= |text|
        invariant Linked(us, saveParent) && Distinct(us) && fresh(NodeSet(us))
        invariant saveParent.children == old(parent.children) + Roots(us)
        invariant Labels(us) + rest.trees == all && rest.end == ReadList(text, pos).end
        invariant if newPos >= 0 then rest == ReadListRest(text, newPos)
                  else rest == ListRead([], p) && parent == saveParent
        decreases if newPos >= 0 then |text| - newPos + 1 else 0
      {
        p := newPos;
        parent := saveParent;
        if newPos < |text| && text[p] == ',' {
          newPos := newPos + 1;
        }
        ghost var vs;
        NodesExist(us);
        ListStep(text, p);
        newPos, vs := ParseTree(text, newPos);
        Split(us, vs, saveParent);
        LabelsAppend(us, vs);
        if newPos >= 0 {
          rest := ReadListRest(text, newPos);
          assert Labels(us) + (Labels(vs) + rest.trees) == Labels(us + vs) + rest.trees;
          us := us + vs;
        }
      }
      assert Labels(us) + [] == Labels(us);
      newPos := p;
    }
  }

  /** The whole parser: a new root, null when not even one tree can be read. */
  method ParseTestList(text: string) returns (root: TestChain?, ghost t: Shape)
    ensures match ReadTestList(text)
            case None => root == null
            case Some(tree) => root != null && t.val.node == root && Labels([t]) == [tree]
                               && fresh(NodeSet([t])) && WellFormed(t) && root.copies == map[]
  {
    hide Labels, NodeSet, Linked, Distinct, ReadList;
    var parentSave := new TestChain("ROOT", null);
    var parser := new Parser(parentSave);
    var newPos;
    ghost var us;
    newPos, us := parser.ParseList(text, 0);
    t := Tree(Item(parentSave, "ROOT"), us);
    One(t, null);
    LabelsOf(t);
    if newPos >= 0 {
      return parentSave, t;
    }
    return null, t;
  }
}
