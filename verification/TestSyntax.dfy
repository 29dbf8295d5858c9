/** The test list notation: what a tree prints as, and what each parsing step reads and builds. */
module TestSyntax {
  import opened Options
  import opened Trees

  type TestTree = Tree<string>

  predicate Delim(c: char) {
    c == '>' || c == '{' || c == '}' || c == ','
  }

  // ----- printing -----

  function Print(t: TestTree): string
    decreases t, 0
  {
    if |t.kids| > 1 then t.val + ">{" + Join(t.kids) + "}"
    else if |t.kids| == 1 then t.val + ">" + Print(t.kids[0])
    else t.val
  }

  function Join(ts: seq<TestTree>): string
    decreases ts, 1
  {
    if ts == [] then ""
    else if |ts| == 1 then Print(ts[0])
    else Print(ts[0]) + "," + Join(ts[1..])
  }

  // ----- reading: results are positions as in the source, or -1 -----

  /** The end of the delimiter-free run that starts at pos. */
  function RunEnd(s: string, pos: nat): (e: nat)
    requires pos <= |s|
    ensures pos <= e <= |s|
    ensures forall i :: pos <= i < e ==> !Delim(s[i])
    ensures e < |s| ==> Delim(s[e])
    decreases |s| - pos
  {
    if pos < |s| && !Delim(s[pos]) then RunEnd(s, pos + 1) else pos
  }

  function Skip(s: string, pos: nat, c: char): (p: nat)
    requires pos <= |s|
    ensures pos <= p <= |s|
  {
    if pos < |s| && s[pos] == c then pos + 1 else pos
  }

  datatype ChainRead = ChainRead(labels: seq<string>, end: nat)
  datatype TreeRead = NoTree | TreeRead(tree: TestTree, end: nat)
  /** A bracket that fails after its list was read has still attached the list's trees. */
  datatype ListRead = ListRead(trees: seq<TestTree>, end: int)

  /** The tests that continue a chain after the one that ends at pos. */
  function ReadChainRest(s: string, pos: nat): (r: ChainRead)
    requires pos <= |s|
    ensures pos <= r.end <= |s|
    decreases |s| - pos
  {
    var p := Skip(s, pos, '>');
    var e := RunEnd(s, p);
    if e == p then ChainRead([], pos)
    else
      var r := ReadChainRest(s, e);
      ChainRead([s[p..e]] + r.labels, r.end)
  }

  /** A chain of tests, each the only child of the one before, with kids below the last. */
  function Nest(labels: seq<string>, kids: seq<TestTree>): seq<TestTree> {
    if labels == [] then kids else [Tree(labels[0], Nest(labels[1..], kids))]
  }

  function ReadTree(s: string, pos: nat): (r: TreeRead)
    requires pos <= |s|
    ensures r.TreeRead? ==> pos < r.end <= |s|
    decreases |s| - pos, 0
  {
    var e := RunEnd(s, pos);
    if e == pos then NoTree
    else
      var c := ReadChainRest(s, e);
      var b := ReadBracket(s, Skip(s, c.end, '>'));
      TreeRead(Tree(s[pos..e], Nest(c.labels, b.trees)), if b.end >= 0 then b.end else c.end)
  }

  function ReadBracket(s: string, pos: nat): (r: ListRead)
    requires pos <= |s|
    ensures r.end == -1 || pos < r.end <= |s|
    decreases |s| - pos, 2
  {
    if pos < |s| && s[pos] == '{' then
      var l := ReadList(s, pos + 1);
      var p := if l.end >= 0 then l.end else pos + 1;
      ListRead(l.trees, if p < |s| && s[p] == '}' then p + 1 else -1)
    else ListRead([], -1)
  }

  function ReadList(s: string, pos: nat): (r: ListRead)
    requires pos <= |s|
    ensures r.end == -1 || pos < r.end <= |s|
    decreases |s| - pos, 1
  {
    match ReadTree(s, pos)
    case NoTree => ListRead([], -1)
    case TreeRead(t, e) =>
      var r := ReadListRest(s, e);
      ListRead([t] + r.trees, r.end)
  }

  /** The trees that follow one that ends at pos; the comma between two trees is optional. */
  function ReadListRest(s: string, pos: nat): (r: ListRead)
    requires pos <= |s|
    ensures pos <= r.end <= |s|
    decreases |s| - pos, 1
  {
    match ReadTree(s, Skip(s, pos, ','))
    case NoTree => ListRead([], pos)
    case TreeRead(t, e) =>
      var r := ReadListRest(s, e);
      ListRead([t] + r.trees, r.end)
  }

  // ----- printing, then reading -----

  /** Labels that can be written down: not empty and free of delimiters, everywhere in the tree. */
  ghost predicate Printable(ts: seq<TestTree>) {
    ts == [] ||
    (Label(ts[0].val) && Printable(ts[0].kids) && Printable(ts[1..]))
  }

  ghost predicate At(s: string, pos: nat, w: string) {
    pos + |w| <= |s| && s[pos..pos + |w|] == w
  }

  /** A tree ends where the text ends, at a comma or at a closing bracket. */
  ghost predicate EndsTree(s: string, pos: nat) {
    pos <= |s| && (pos < |s| ==> s[pos] == ',' || s[pos] == '}')
  }

  lemma AtSplit(s: string, pos: nat, a: string, b: string)
    requires At(s, pos, a + b)
    ensures At(s, pos, a) && At(s, pos + |a|, b)
  {
    assert s[pos..pos + |a|] == (a + b)[..|a|] == a;
    assert s[pos + |a|..pos + |a| + |b|] == (a + b)[|a|..] == b;
  }

  lemma {:induction false} RunEndOfLabel(s: string, pos: nat, w: string)
    requires At(s, pos, w) && forall i :: 0 <= i < |w| ==> !Delim(w[i])
    requires pos + |w| == |s| || Delim(s[pos + |w|])
    ensures RunEnd(s, pos) == pos + |w|
  {
    assert forall i :: pos <= i < pos + |w| ==> s[i] == w[i - pos];
  }

  /** Where another label follows, reading goes on as if the rest of the tree started there. */
  lemma ReadTreeChild(s: string, pos: nat)
    requires pos <= |s| && RunEnd(s, pos) > pos
    requires ReadTree(s, Skip(s, RunEnd(s, pos), '>')).TreeRead?
    ensures var e := RunEnd(s, pos);
            var below := ReadTree(s, Skip(s, e, '>'));
            ReadTree(s, pos) == TreeRead(Tree(s[pos..e], [below.tree]), below.end)
  {
    var p := Skip(s, RunEnd(s, pos), '>');
    var f := RunEnd(s, p);
    var c := ReadChainRest(s, f);
    assert ([s[p..f]] + c.labels)[1..] == c.labels;
  }

  lemma ReadTreeBracket(s: string, pos: nat)
    requires pos <= |s| && RunEnd(s, pos) > pos
    requires var e := RunEnd(s, pos); e + 2 <= |s| && s[e] == '>' && s[e + 1] == '{'
    requires var l := ReadList(s, RunEnd(s, pos) + 2); 0 <= l.end < |s| && s[l.end] == '}'
    ensures var e := RunEnd(s, pos);
            var l := ReadList(s, e + 2);
            ReadTree(s, pos) == TreeRead(Tree(s[pos..e], l.trees), l.end + 1)
  {
  }

  lemma ReadTreeLeaf(s: string, pos: nat)
    requires pos <= |s| && RunEnd(s, pos) > pos && EndsTree(s, RunEnd(s, pos))
    ensures ReadTree(s, pos) == TreeRead(Tree(s[pos..RunEnd(s, pos)], []), RunEnd(s, pos))
  {
  }

  /** Reading what a tree prints as gives back that tree and stops right behind it. */
  lemma {:induction false} ReadPrinted(s: string, pos: nat, t: TestTree)
    requires Printable([t]) && At(s, pos, Print(t)) && EndsTree(s, pos + |Print(t)|)
    ensures ReadTree(s, pos) == TreeRead(t, pos + |Print(t)|)
    decreases t, 0
  {
    hide ReadTree, ReadBracket, ReadList, ReadListRest, ReadChainRest;
    if |t.kids| > 1 {
      ReadPrintedBracket(s, pos, t);
    } else if |t.kids| == 1 {
      AtSplit(s, pos, t.val + ">", Print(t.kids[0]));
      AtSplit(s, pos, t.val, ">");
      RunEndOfLabel(s, pos, t.val);
      assert [t.kids[0]] == t.kids;
      ReadPrinted(s, pos + |t.val| + 1, t.kids[0]);
      ReadTreeChild(s, pos);
    } else {
      RunEndOfLabel(s, pos, t.val);
      ReadTreeLeaf(s, pos);
    }
  }

  lemma {:induction false} ReadPrintedBracket(s: string, pos: nat, t: TestTree)
    requires Printable([t]) && At(s, pos, Print(t)) && |t.kids| > 1
    ensures ReadTree(s, pos) == TreeRead(t, pos + |Print(t)|)
    decreases t.kids, 2
  {
    hide ReadTree, ReadBracket, ReadList, ReadListRest, ReadChainRest;
    var e := pos + |t.val|;
    AtSplit(s, pos, t.val + ">{" + Join(t.kids), "}");
    AtSplit(s, pos, t.val + ">{", Join(t.kids));
    AtSplit(s, pos, t.val, ">{");
    assert s[e] == s[e..e + 2][0] == '>' && s[e + 1] == s[e..e + 2][1] == '{';
    RunEndOfLabel(s, pos, t.val);
    ReadJoined(s, e + 2, t.kids);
    ReadTreeBracket(s, pos);
  }

  lemma NothingFollows(s: string, pos: nat)
    requires pos <= |s| && (pos < |s| ==> Delim(s[pos]) && s[pos] != ',')
    ensures ReadListRest(s, pos) == ListRead([], pos)
  {
    assert Skip(s, pos, ',') == pos == RunEnd(s, pos);
  }

  lemma {:induction false} ReadJoined(s: string, pos: nat, ts: seq<TestTree>)
    requires ts != [] && Printable(ts) && At(s, pos, Join(ts))
    requires var e := pos + |Join(ts)|; e == |s| || s[e] == '}'
    ensures ReadList(s, pos) == ListRead(ts, pos + |Join(ts)|)
    decreases ts, 1
  {
    hide ReadTree, ReadBracket, ReadChainRest, Print;
    assert [ts[0]] + ts[1..] == ts;
    if |ts| == 1 {
      ReadPrinted(s, pos, ts[0]);
      NothingFollows(s, pos + |Join(ts)|);
    } else {
      AtSplit(s, pos, Print(ts[0]) + ",", Join(ts[1..]));
      AtSplit(s, pos, Print(ts[0]), ",");
      ReadPrinted(s, pos, ts[0]);
      ReadJoined(s, pos + |Print(ts[0])| + 1, ts[1..]);
    }
  }

  /** The whole reader: text that is left over behind the last tree is ignored. */
  function ReadTestList(s: string): Option<TestTree> {
    var l := ReadList(s, 0);
    if l.end >= 0 then Some(Tree("ROOT", l.trees)) else None
  }

  /** Parsing what a tree prints as consumes the whole text and recovers that tree. */
  lemma PrintThenRead(t: TestTree)
    requires Printable([t])
    ensures ReadList(Print(t), 0).end == |Print(t)|
    ensures ReadTestList(Print(t)) == Some(Tree("ROOT", [t]))
  {
    ReadPrinted(Print(t), 0, t);
    NothingFollows(Print(t), |Print(t)|);
    assert [t] + [] == [t];
  }

  // ----- which labels are read, and in which order -----

  /** The maximal delimiter-free runs of the text from pos on. */
  function Runs(s: string, pos: nat): seq<string>
    requires pos <= |s|
    decreases |s| - pos
  {
    if pos == |s| then []
    else if Delim(s[pos]) then Runs(s, pos + 1)
    else [s[pos..RunEnd(s, pos)]] + Runs(s, RunEnd(s, pos))
  }

  lemma RunsBehind(s: string, pos: nat)
    requires pos < |s| && Delim(s[pos])
    ensures Runs(s, pos) == Runs(s, pos + 1)
  {
  }

  lemma RunsAt(s: string, pos: nat)
    requires pos <= |s|
    ensures var e := RunEnd(s, pos); e == pos || Runs(s, pos) == [s[pos..e]] + Runs(s, e)
  {
  }

  lemma Regroup2<A>(a: seq<A>, b: seq<A>, c: seq<A>)
    ensures a + (b + c) == (a + b) + c
  {
  }

  lemma {:induction false} ChainRuns(s: string, pos: nat)
    requires pos <= |s|
    ensures var c := ReadChainRest(s, pos); Runs(s, pos) == c.labels + Runs(s, c.end)
    decreases |s| - pos
  {
    var p := Skip(s, pos, '>');
    var e := RunEnd(s, p);
    hide Runs, RunEnd;
    if p > pos {
      RunsBehind(s, pos);
    }
    RunsAt(s, p);
    if e > p {
      ChainRuns(s, e);
      Regroup2([s[p..e]], ReadChainRest(s, e).labels, Runs(s, ReadChainRest(s, e).end));
    }
  }

  lemma {:induction false} PreNest(labels: seq<string>, kids: seq<TestTree>)
    ensures Pre(Nest(labels, kids)) == labels + Pre(kids)
  {
    if labels != [] {
      PreNest(labels[1..], kids);
      PreHead(Nest(labels, kids));
      assert labels == [labels[0]] + labels[1..];
    } else {
      assert labels + Pre(kids) == Pre(kids);
    }
  }

  /** A position behind which no tree, comma or closing bracket can follow. */
  predicate Stuck(s: string, pos: nat) {
    pos < |s| && (s[pos] == '>' || s[pos] == '{')
  }

  lemma Regroup3<A>(a: seq<A>, b: seq<A>, c: seq<A>, d: seq<A>)
    ensures a + (b + (c + d)) == (a + b + c) + d
  {
  }

  lemma TreeLabels(s: string, pos: nat)
    requires pos <= |s| && ReadTree(s, pos).TreeRead?
    ensures var e := RunEnd(s, pos);
            var c := ReadChainRest(s, e);
            var b := ReadBracket(s, Skip(s, c.end, '>'));
            && Pre([ReadTree(s, pos).tree]) == [s[pos..e]] + c.labels + Pre(b.trees)
            && ReadTree(s, pos).end == (if b.end >= 0 then b.end else c.end)
            && pos < e
  {
    var c := ReadChainRest(s, RunEnd(s, pos));
    PreNest(c.labels, ReadBracket(s, Skip(s, c.end, '>')).trees);
    PreHead([ReadTree(s, pos).tree]);
  }

  /** The labels of a tree are the runs up to some point h. Only a bracket that was begun and
      not completed makes h differ from where the tree ends, and then nothing can follow. */
  lemma {:induction false} TreeRuns(s: string, pos: nat) returns (h: nat)
    requires pos <= |s| && ReadTree(s, pos).TreeRead?
    ensures ReadTree(s, pos).end <= h <= |s|
    ensures Runs(s, pos) == Pre([ReadTree(s, pos).tree]) + Runs(s, h)
    ensures h == ReadTree(s, pos).end || Stuck(s, ReadTree(s, pos).end)
    decreases |s| - pos, 0
  {
    hide ReadTree, ReadBracket;
    TreeLabels(s, pos);
    var e := RunEnd(s, pos);
    var c := ReadChainRest(s, e);
    var p := Skip(s, c.end, '>');
    var b := ReadBracket(s, p);
    h := BracketRuns(s, p);
    if b.end < 0 && b.trees == [] {
      h := c.end;
    }
    assert Runs(s, c.end) == Pre(b.trees) + Runs(s, h) by {
      assert Runs(s, c.end) == Runs(s, p);
    }
    ChainRuns(s, e);
    Regroup3([s[pos..e]], c.labels, Pre(b.trees), Runs(s, h));
  }

  lemma NoRuns(s: string, pos: nat)
    requires pos <= |s|
    ensures Runs(s, pos) == Pre([]) + Runs(s, pos)
  {
  }

  lemma {:induction false} BracketRuns(s: string, pos: nat) returns (h: nat)
    requires pos <= |s|
    ensures pos <= h <= |s|
    ensures Runs(s, pos) == Pre(ReadBracket(s, pos).trees) + Runs(s, h)
    ensures ReadBracket(s, pos).end >= 0 ==> h == ReadBracket(s, pos).end
    ensures ReadBracket(s, pos).trees != [] ==> pos < |s| && s[pos] == '{'
    decreases |s| - pos, 2
  {
    hide Runs, ReadList, Pre;
    h := pos;
    NoRuns(s, pos);
    if pos < |s| && s[pos] == '{' {
      RunsBehind(s, pos);
      h := ListRuns(s, pos + 1);
      if ReadBracket(s, pos).end >= 0 {
        h := ReadBracket(s, pos).end;
        RunsBehind(s, h - 1);
      }
    }
  }

  lemma NothingWhenStuck(s: string, pos: nat)
    requires pos <= |s| && Stuck(s, pos)
    ensures ReadListRest(s, pos) == ListRead([], pos)
  {
    hide ReadChainRest, ReadBracket;
  }

  lemma {:induction false} ListRuns(s: string, pos: nat) returns (h: nat)
    requires pos <= |s|
    ensures pos <= h <= |s|
    ensures Runs(s, pos) == Pre(ReadList(s, pos).trees) + Runs(s, h)
    ensures var e := ReadList(s, pos).end;
            if e < 0 then h == pos else e <= h && (h == e || Stuck(s, e))
    decreases |s| - pos, 1
  {
    hide Runs, ReadTree, ReadChainRest, ReadBracket;
    NoRuns(s, pos);
    match ReadTree(s, pos)
    case NoTree => h := pos;
    case TreeRead(t, e) =>
      h := TreeRuns(s, pos);
      var rest := ReadListRest(s, e).trees;
      PreHead(ReadList(s, pos).trees);
      assert ReadList(s, pos).trees[1..] == rest;
      if h == e {
        h := ListRestRuns(s, e);
        Regroup2(Pre([t]), Pre(rest), Runs(s, h));
      } else {
        NothingWhenStuck(s, e);
      }
  }

  lemma {:induction false} ListRestRuns(s: string, pos: nat) returns (h: nat)
    requires pos <= |s|
    ensures pos <= h <= |s|
    ensures Runs(s, pos) == Pre(ReadListRest(s, pos).trees) + Runs(s, h)
    ensures var e := ReadListRest(s, pos).end; e <= h && (h == e || Stuck(s, e))
    decreases |s| - pos, 1
  {
    var p := Skip(s, pos, ',');
    match ReadTree(s, p)
    case NoTree => h := pos;
    case TreeRead(t, e) =>
      h := TreeRuns(s, p);
      if h == e {
        h := ListRestRuns(s, e);
      }
      PreHead(ReadListRest(s, pos).trees);
      assert ReadListRest(s, pos).trees[1..] == ReadListRest(s, e).trees;
  }

  /** In preorder, the labels read are an initial part of the text's runs, and where the
      whole text is consumed they are exactly its runs. */
  lemma LabelsAreRuns(s: string)
    ensures Pre(ReadList(s, 0).trees) <= Runs(s, 0)
    ensures ReadList(s, 0).end == |s| ==> Pre(ReadList(s, 0).trees) == Runs(s, 0)
  {
    var h := ListRuns(s, 0);
  }

  predicate Label(s: string) {
    s != "" && forall i :: 0 <= i < |s| ==> !Delim(s[i])
  }

  lemma {:induction false} RunsAreLabels(s: string, pos: nat)
    requires pos <= |s|
    ensures forall w :: w in Runs(s, pos) ==> Label(w)
    decreases |s| - pos
  {
    if pos < |s| {
      if Delim(s[pos]) {
        RunsAreLabels(s, pos + 1);
      } else {
        RunsAreLabels(s, RunEnd(s, pos));
      }
    }
  }

  lemma {:induction false} PrintableIff(ts: seq<TestTree>)
    ensures Printable(ts) <==> forall w :: w in Pre(ts) ==> Label(w)
  {
    if ts != [] {
      PrintableIff(ts[0].kids);
      PrintableIff(ts[1..]);
    }
  }

  /** Every tree the parser builds can be printed, its top level as a list, and read again. */
  lemma ParsedIsPrintable(s: string)
    ensures var r := ReadTestList(s);
            r.Some? ==> Printable(r.value.kids) && ReadTestList(Join(r.value.kids)) == r
  {
    hide Print, Join, Printable, ReadTree, ReadListRest, Runs, Pre;
    var r := ReadTestList(s);
    if r.Some? {
      var ts := r.value.kids;
      assert ts == ReadList(s, 0).trees && ts != [];
      LabelsAreRuns(s);
      RunsAreLabels(s, 0);
      assert Pre(ts) <= Runs(s, 0);
      assert forall w :: w in Pre(ts) ==> w in Runs(s, 0);
      PrintableIff(ts);
      ReadJoined(Join(ts), 0, ts);
    }
  }

  /** A text without any of the four delimiters is one test, whatever else is in it. */
  lemma OneLabel(s: string)
    requires s != "" && '>' !in s && '{' !in s && '}' !in s && ',' !in s
    ensures ReadTestList(s) == Some(Tree("ROOT", [Tree(s, [])]))
    ensures Runs(s, 0) == [s]
  {
    hide ReadTree, ReadListRest;
    assert Label(s);
    PrintableIff([Tree(s, [])]);
    assert Pre([Tree(s, [])]) == [s];
    PrintThenRead(Tree(s, []));
    LabelsAreRuns(s);
    assert ReadTestList(s).value.kids == ReadList(s, 0).trees;
  }

  /** The angle bracket in front of a list and the comma behind one can be left out. */
  lemma WithoutSeparators()
    ensures ReadTestList("a{b}c") == Some(Tree("ROOT", [Tree("a", [Tree("b", [])]), Tree("c", [])]))
  {
    hide ReadTree, ReadListRest, ReadChainRest, ReadBracket;
    var s := "a{b}c";
    assert RunEnd(s, 0) == 1 && RunEnd(s, 1) == 1 && RunEnd(s, 2) == 3 && RunEnd(s, 3) == 3 && RunEnd(s, 4) == 5;
    assert s[0..1] == "a" && s[2..3] == "b" && s[4..5] == "c";
    ReadTreeLeaf(s, 2);
    NothingFollows(s, 3);
    assert ReadList(s, 2) == ListRead([Tree("b", [])], 3);
    ReadTreeOpen(s, 0);
    assert ReadTree(s, 0) == TreeRead(Tree("a", [Tree("b", [])]), 4);
    ReadTreeLeaf(s, 4);
    NothingFollows(s, 5);
    ReadNext(s, 4);
    var a, c := Tree("a", [Tree("b", [])]), Tree("c", []);
    assert [c] + [] == [c] && [a] + [c] == [a, c];
    assert ReadListRest(s, 4) == ListRead([c], 5);
    assert ReadList(s, 0) == ListRead([a, c], 5);
  }

  lemma ReadTreeOpen(s: string, pos: nat)
    requires pos <= |s| && RunEnd(s, pos) > pos
    requires var e := RunEnd(s, pos); e + 1 <= |s| && s[e] == '{'
    requires var l := ReadList(s, RunEnd(s, pos) + 1); 0 <= l.end < |s| && s[l.end] == '}'
    ensures var l := ReadList(s, RunEnd(s, pos) + 1);
            ReadTree(s, pos) == TreeRead(Tree(s[pos..RunEnd(s, pos)], l.trees), l.end + 1)
  {
  }

  lemma ReadNext(s: string, pos: nat)
    requires pos < |s| && s[pos] != ',' && ReadTree(s, pos).TreeRead?
    ensures var t := ReadTree(s, pos);
            var r := ReadListRest(s, t.end);
            ReadListRest(s, pos) == ListRead([t.tree] + r.trees, r.end)
  {
  }

  /** A list that is not closed is kept, and what follows is left over. */
  lemma Unclosed()
    ensures ReadTestList("a>{b") == Some(Tree("ROOT", [Tree("a", [Tree("b", [])])])) && ReadList("a>{b", 0).end == 1
  {
    hide ReadTree, ReadListRest, ReadChainRest;
    var s := "a>{b";
    assert RunEnd(s, 0) == 1 && RunEnd(s, 1) == 1 && RunEnd(s, 2) == 2 && RunEnd(s, 3) == 4;
    assert s[0..1] == "a" && s[3..4] == "b";
    ReadTreeLeaf(s, 3);
    NothingFollows(s, 4);
    assert ReadBracket(s, 2) == ListRead([Tree("b", [])], -1);
    ReadTreeUnclosed(s, 0);
    NothingFollows(s, 1);
    var a := Tree("a", [Tree("b", [])]);
    assert [a] + [] == [a];
    assert ReadTree(s, 0) == TreeRead(a, 1);
    assert ReadList(s, 0) == ListRead([a], 1);
  }

  lemma ReadTreeUnclosed(s: string, pos: nat)
    requires pos <= |s| && RunEnd(s, pos) > pos
    requires var e := RunEnd(s, pos); e + 2 <= |s| && s[e] == '>' && s[e + 1] == '{' && ReadBracket(s, e + 1).end < 0
    ensures var e := RunEnd(s, pos); ReadTree(s, pos) == TreeRead(Tree(s[pos..e], ReadBracket(s, e + 1).trees), e)
  {
  }

  /** The delimiters end labels: what is in front of the first one is the first test. */
  lemma FirstLabel(s: string, rest: string)
    requires s != "" && '>' !in s && '{' !in s && '}' !in s && ',' !in s
    requires rest != "" && rest[0] in ">{},"
    ensures Runs(s + rest, 0) == [s] + Runs(rest, 0)
  {
    RunEndOfLabel(s + rest, 0, s);
    RunsAt(s + rest, 0);
    RunsBehindLabel(s, rest, 0);
    assert (s + rest)[0..|s|] == s;
  }

  lemma NoRunsLeft(s: string, pos: nat)
    requires pos == |s|
    ensures Runs(s, pos) == []
  {
  }

  lemma RunEndMoves(s: string, pos: nat)
    requires pos < |s| && !Delim(s[pos])
    ensures RunEnd(s, pos) > pos
  {
  }

  lemma {:induction false} RunsBehindLabel(s: string, rest: string, pos: nat)
    requires pos <= |rest|
    ensures Runs(s + rest, |s| + pos) == Runs(rest, pos)
    decreases |rest| - pos
  {
    hide Runs, RunEnd, Delim;
    var all := s + rest;
    if pos == |rest| {
      NoRunsLeft(all, |all|);
      NoRunsLeft(rest, pos);
    } else if Delim(rest[pos]) {
      RunsBehind(all, |s| + pos);
      RunsBehind(rest, pos);
      RunsBehindLabel(s, rest, pos + 1);
    } else {
      var e := RunEnd(rest, pos);
      assert all[|s| + pos..|s| + e] == rest[pos..e];
      RunEndOfLabel(all, |s| + pos, rest[pos..e]);
      RunsAt(all, |s| + pos);
      RunsAt(rest, pos);
      RunEndMoves(rest, pos);
      RunsBehindLabel(s, rest, e);
    }
  }

  /** A tree that is not what its printed form reads as has a label that is empty or contains
      a delimiter. */
  lemma RoundTripIff(t: TestTree)
    ensures ReadTestList(Print(t)) == Some(Tree("ROOT", [t])) <==>
            forall w :: w in Pre([t]) ==> w != "" && forall c :: c in w ==> c !in ">{},"
  {
    hide Print;
    if Printable([t]) {
      PrintThenRead(t);
    }
    LabelsAreRuns(Print(t));
    RunsAreLabels(Print(t), 0);
    PrintableIff([t]);
    forall w
      ensures Label(w) <==> w != "" && forall c :: c in w ==> c !in ">{},"
    {
      LabelIff(w);
    }
  }

  lemma LabelIff(w: string)
    ensures Label(w) <==> w != "" && forall c :: c in w ==> c !in ">{},"
  {
    assert forall c :: c in ">{}," <==> Delim(c);
    assert forall i :: 0 <= i < |w| ==> w[i] in w;
  }
}
