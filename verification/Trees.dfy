/** Ordered trees, their preorder, and a zipper that marks one place in a forest. */
module Trees {

  datatype Tree<A> = Tree(val: A, kids: seq<Tree<A>>)

  /** The values of a forest in preorder. */
  function Pre<A>(ts: seq<Tree<A>>): seq<A> {
    if ts == [] then [] else [ts[0].val] + Pre(ts[0].kids) + Pre(ts[1..])
  }

  lemma {:induction false} PreAppend<A>(a: seq<Tree<A>>, b: seq<Tree<A>>)
    ensures Pre(a + b) == Pre(a) + Pre(b)
  {
    if a == [] {
      assert a + b == b;
    } else {
      assert (a + b)[1..] == a[1..] + b;
      PreAppend(a[1..], b);
    }
  }

  /** A place in a forest: the trees to its left and right, and the node above with its own place. */
  datatype Ctx<A> =
    | Top
    | In(up: Ctx<A>, above: A, left: seq<Tree<A>>, right: seq<Tree<A>>)

  function Plug<A>(c: Ctx<A>, hole: seq<Tree<A>>): seq<Tree<A>> {
    match c
    case Top => hole
    case In(up, above, left, right) => Plug(up, [Tree(above, left + hole + right)])
  }

  /** The root of the tree that a place below it belongs to. */
  function Outer<A>(c: Ctx<A>): A
    requires c.In?
  {
    if c.up.Top? then c.above else Outer(c.up)
  }

  lemma {:induction false} PlugOuter<A>(c: Ctx<A>, hole: seq<Tree<A>>)
    requires c.In?
    ensures |Plug(c, hole)| == 1 && Plug(c, hole)[0].val == Outer(c)
  {
    if c.up.In? {
      PlugOuter(c.up, [Tree(c.above, c.left + hole + c.right)]);
    }
  }

  /** What comes before the hole in preorder, and what comes after it. */
  function Before<A>(c: Ctx<A>): seq<A> {
    match c
    case Top => []
    case In(up, above, left, _) => Before(up) + [above] + Pre(left)
  }

  function After<A>(c: Ctx<A>): seq<A> {
    match c
    case Top => []
    case In(up, _, _, right) => Pre(right) + After(up)
  }

  lemma Regroup<A>(a: seq<A>, b: seq<A>, c: seq<A>, d: seq<A>, e: seq<A>, f: seq<A>)
    ensures a + (b + (c + d + e)) + f == (a + b + c) + d + (e + f)
  {
  }

  lemma {:induction false} PrePlug<A>(c: Ctx<A>, hole: seq<Tree<A>>)
    ensures Pre(Plug(c, hole)) == Before(c) + Pre(hole) + After(c)
  {
    match c
    case Top =>
    case In(up, above, left, right) =>
      var t := Tree(above, left + hole + right);
      PreHead([t]);
      assert Pre([t]) == [above] + (Pre(left) + Pre(hole) + Pre(right)) by {
        PreAppend(left + hole, right);
        PreAppend(left, hole);
      }
      PrePlug(up, [t]);
      Regroup(Before(up), [above], Pre(left), Pre(hole), Pre(right), After(up));
  }

  lemma PreHead<A>(ts: seq<Tree<A>>)
    requires ts != []
    ensures Pre([ts[0]]) == [ts[0].val] + Pre(ts[0].kids)
    ensures Pre(ts) == Pre([ts[0]]) + Pre(ts[1..])
  {
    assert [ts[0]][1..] == [];
  }

  /** Every index into the preorder of a tree has its own place. */
  lemma {:induction false} Locate<A>(c: Ctx<A>, t: Tree<A>, k: nat) returns (d: Ctx<A>, s: Tree<A>)
    requires k < |Pre([t])|
    ensures Plug(d, [s]) == Plug(c, [t])
    ensures |Before(d)| == |Before(c)| + k
    decreases t, 0
  {
    PreHead([t]);
    if k == 0 {
      d, s := c, t;
    } else {
      d, s := LocateAmong(c, t.val, [], t.kids, k - 1);
      assert [] + t.kids == t.kids;
    }
  }

  lemma {:induction false} LocateAmong<A>(up: Ctx<A>, above: A, done: seq<Tree<A>>, ts: seq<Tree<A>>, k: nat)
    returns (d: Ctx<A>, s: Tree<A>)
    requires k < |Pre(ts)|
    ensures Plug(d, [s]) == Plug(up, [Tree(above, done + ts)])
    ensures |Before(d)| == |Before(up)| + 1 + |Pre(done)| + k
    decreases ts, 1
  {
    PreHead(ts);
    var n := |Pre([ts[0]])|;
    if k < n {
      d, s := Locate(In(up, above, done, ts[1..]), ts[0], k);
      assert done + [ts[0]] + ts[1..] == done + ts;
    } else {
      d, s := LocateAmong(up, above, done + [ts[0]], ts[1..], k - n);
      PreAppend(done, [ts[0]]);
      assert done + [ts[0]] + ts[1..] == done + ts;
    }
  }

  datatype Spot<A> = Nowhere | Spot(place: Ctx<A>, tree: Tree<A>)

  /** The next place in preorder: the first child, or else the nearest right sibling of the
      node or of a node above it. */
  function Step<A>(c: Ctx<A>, t: Tree<A>): Spot<A> {
    if t.kids != [] then Spot(In(c, t.val, [], t.kids[1..]), t.kids[0]) else Climb(c, t)
  }

  function Climb<A>(c: Ctx<A>, t: Tree<A>): Spot<A> {
    match c
    case Top => Nowhere
    case In(up, above, left, right) =>
      if right != [] then Spot(In(up, above, left + [t], right[1..]), right[0])
      else Climb(up, Tree(above, left + [t]))
  }

  /** A step stays in the same tree and moves on by exactly one node. */
  lemma StepMoves<A>(c: Ctx<A>, t: Tree<A>)
    ensures match Step(c, t)
            case Nowhere => Pre(t.kids) + After(c) == []
            case Spot(d, s) =>
              && Plug(d, [s]) == Plug(c, [t]) && d.In?
              && |Pre(t.kids) + After(c)| > 0 && s.val == (Pre(t.kids) + After(c))[0]
              && |Before(d)| == |Before(c)| + 1
  {
    if t.kids != [] {
      assert [] + [t.kids[0]] + t.kids[1..] == t.kids;
      PreHead(t.kids);
    } else {
      ClimbMoves(c, t);
    }
  }

  lemma {:induction false} ClimbMoves<A>(c: Ctx<A>, t: Tree<A>)
    ensures match Climb(c, t)
            case Nowhere => After(c) == []
            case Spot(d, s) =>
              && Plug(d, [s]) == Plug(c, [t]) && d.In?
              && |After(c)| > 0 && s.val == After(c)[0]
              && |Before(d)| == |Before(c)| + |Pre([t])|
  {
    match c
    case Top =>
    case In(up, above, left, right) =>
      PreAppend(left, [t]);
      if right != [] {
        assert (left + [t]) + [right[0]] + right[1..] == left + [t] + right;
        PreHead(right);
      } else {
        assert left + [t] + right == left + [t];
        ClimbMoves(up, Tree(above, left + [t]));
        PreHead([Tree(above, left + [t])]);
      }
  }

  /** Replaces every value of a forest. */
  function Map<A, B>(ts: seq<Tree<A>>, f: A -> B): (r: seq<Tree<B>>)
    ensures |r| == |ts|
  {
    if ts == [] then [] else [Tree(f(ts[0].val), Map(ts[0].kids, f))] + Map(ts[1..], f)
  }

  lemma {:induction false} MapAppend<A, B>(a: seq<Tree<A>>, b: seq<Tree<A>>, f: A -> B)
    ensures Map(a + b, f) == Map(a, f) + Map(b, f)
  {
    if a == [] {
      assert a + b == b;
    } else {
      assert (a + b)[1..] == a[1..] + b;
      MapAppend(a[1..], b, f);
    }
  }
}
