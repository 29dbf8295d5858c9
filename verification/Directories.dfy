/** The parameter directories that tests inherit along the tree, and the agente that copies them. */
module Directories {
  import opened Options
  import opened Trees
  import opened TestSyntax
  import opened TestChains
  import opened Expansion

  // ----- which boards a test is for -----

  predicate OccursAt(s: string, w: string, i: nat) {
    i + |w| <= |s| && s[i..i + |w|] == w
  }

  predicate Contains(s: string, w: string) {
    exists i :: 0 <= i <= |s| && OccursAt(s, w, i)
  }

  /** The parts between the occurrences of a character; there is always at least one. */
  function SplitAt(s: string, c: char): (r: seq<string>)
    ensures |r| > 0
  {
    if s == "" then [""]
    else
      var rest := SplitAt(s[1..], c);
      if s[0] == c then [""] + rest else [[s[0]] + rest[0]] + rest[1..]
  }

  function StripLeft(s: string): string {
    if s != "" && (s[0] == 'T' || s[0] == 'B') then StripLeft(s[1..]) else s
  }

  function StripRight(s: string): string {
    if s != "" && (s[|s| - 1] == 'T' || s[|s| - 1] == 'B') then StripRight(s[..|s| - 1]) else s
  }

  predicate AllDigits(s: string) {
    forall i :: 0 <= i < |s| ==> '0' <= s[i] <= '9'
  }

  function Value(s: string): (n: nat)
    requires AllDigits(s)
  {
    if s == "" then 0 else 10 * Value(s[..|s| - 1]) + (s[|s| - 1] as int - '0' as int)
  }

  function ParseInt(s: string): Option<nat> {
    if s != "" && AllDigits(s) then Some(Value(s)) else None
  }

  datatype Boards = AllBoards | OneBoard(slot: nat) | BadName

  predicate SingleChannel(cur: string) {
    Contains(cur, "IV") || Contains(Lower(cur), "leakagecurrent")
  }

  /** The boards a test is prepared on; a single-channel test names its board behind an underscore. */
  function BoardsFor(test: string): Boards {
    var parts := SplitAt(Which(test), '_');
    if !SingleChannel(Which(test)) || |parts| != 2 then AllBoards
    else match ParseInt(StripRight(StripLeft(parts[1])))
         case Some(n) => OneBoard(n)
         case None => BadName
  }

  predicate Prepares(test: string, slot: nat) {
    BoardsFor(test) == AllBoards || BoardsFor(test) == OneBoard(slot)
  }

  lemma {:induction false} SplitNothing(s: string, c: char)
    requires c !in s
    ensures SplitAt(s, c) == [s]
  {
    if s != "" {
      SplitNothing(s[1..], c);
      assert [s[0]] + s[1..] == s;
    }
  }

  lemma {:induction false} SplitOnce(a: string, b: string, c: char)
    requires c !in a && c !in b
    ensures SplitAt(a + [c] + b, c) == [a, b]
  {
    var s := a + [c] + b;
    if a == "" {
      assert s[1..] == b;
      SplitNothing(b, c);
    } else {
      assert s[1..] == a[1..] + [c] + b;
      SplitOnce(a[1..], b, c);
      assert [a[0]] + a[1..] == a;
    }
  }

  lemma {:induction false} ValueOfDigits(n: nat)
    ensures Value(Digits(n)) == n
  {
    if n >= 10 {
      ValueOfDigits(n / 10);
      assert Digits(n)[..|Digits(n)| - 1] == Digits(n / 10);
    }
  }

  /** Expansion and preparation fit together: the copy of a per-board test that is named after a
      slot is prepared on the board in that slot and on no other. */
  lemma RenamedForItsBoard(test: string, slot: nat)
    requires Splittable(test) && PerBoard(Which(test))
    ensures BoardsFor(Renamed(test, slot)) == OneBoard(slot)
  {
    hide Digits, FindAt, Value, StripLeft, StripRight, SplitAt, Lower, Renamed, PerBoard, SingleChannel;
    var w, d := Which(test), Digits(slot);
    ParsesRenamed(test, slot);
    NoUnderscore(w);
    var cur := w + "_TB" + d;
    assert cur == w + "_" + ("TB" + d);
    SplitOnce(w, "TB" + d, '_');
    StripsBoard(d);
    ValueOfDigits(slot);
    PerBoardIsSingleChannel(w, "_TB" + d);
    assert cur == w + ("_TB" + d);
  }

  lemma StripsBoard(d: string)
    requires d != "" && forall i :: 0 <= i < |d| ==> '0' <= d[i] <= '9'
    ensures StripRight(StripLeft("TB" + d)) == d
  {
    hide StripLeft, StripRight;
    StripsOne('T', "B" + d);
    StripsOne('B', d);
    StripsNothing(d);
    assert "TB" + d == ['T'] + ("B" + d) && "B" + d == ['B'] + d;
  }

  lemma StripsNothing(d: string)
    requires d != "" && '0' <= d[0] <= '9' && '0' <= d[|d| - 1] <= '9'
    ensures StripLeft(d) == d && StripRight(d) == d
  {
  }

  lemma StripsOne(c: char, s: string)
    requires c == 'T' || c == 'B'
    ensures StripLeft([c] + s) == StripLeft(s)
  {
    assert ([c] + s)[1..] == s;
  }

  lemma NoUnderscore(w: string)
    requires PerBoard(w)
    ensures '_' !in w
  {
    assert '_' !in "IV" && '_' !in "leakagecurrentpon" && '_' !in "leakagecurrentpoff";
    forall i | 0 <= i < |w|
      ensures w[i] != '_'
    {
      assert Lower(w)[i] == LowerChar(w[i]) && Lower(w)[i] in Lower(w);
    }
  }

  lemma PerBoardIsSingleChannel(w: string, rest: string)
    requires PerBoard(w)
    ensures SingleChannel(w + rest)
  {
    var s := w + rest;
    if w == "IV" {
      assert OccursAt(s, "IV", 0);
    } else {
      assert Lower(s)[0..14] == Lower(w)[..14] == "leakagecurrent";
      assert OccursAt(Lower(s), "leakagecurrent", 0);
    }
  }

  // ----- the same without splitting and stripping -----

  /** A test whose name has not exactly one underscore, or speaks neither of IV nor of leakage
      currents, in any case, does not ask for a board. */
  ghost predicate AsksForNone(test: string) {
    var w := Which(test);
    || (forall a, b :: w == a + "_" + b ==> '_' in a || '_' in b)
    || ((forall a, b :: w != a + "IV" + b) && (forall a, b :: Lower(w) != a + "leakagecurrent" + b))
  }

  /** Behind the underscore there is a number, possibly among the letters T and B. */
  ghost predicate AsksFor(test: string, number: string)
    ensures AsksFor(test, number) ==> AllDigits(number)
  {
    && !AsksForNone(test) && number != "" && AllDigits(number)
    && exists a, l, r :: Which(test) == a + "_" + (l + number + r) && '_' !in a && TB(l) && TB(r)
  }

  predicate TB(s: string) {
    forall i :: 0 <= i < |s| ==> s[i] == 'T' || s[i] == 'B'
  }

  lemma {:induction false} SplitTwo(s: string, c: char)
    requires |SplitAt(s, c)| == 2
    ensures var parts := SplitAt(s, c); s == parts[0] + [c] + parts[1] && c !in parts[0] && c !in parts[1]
  {
    var rest := SplitAt(s[1..], c);
    assert s == [s[0]] + s[1..];
    if s[0] == c {
      SplitSingle(s[1..], c);
    } else {
      SplitTwo(s[1..], c);
      assert [s[0]] + (rest[0] + [c] + rest[1]) == ([s[0]] + rest[0]) + [c] + rest[1];
    }
  }

  lemma {:induction false} SplitSingle(s: string, c: char)
    requires |SplitAt(s, c)| == 1
    ensures SplitAt(s, c) == [s] && c !in s
  {
    if s != "" {
      SplitSingle(s[1..], c);
      assert s == [s[0]] + s[1..];
    }
  }

  lemma ContainsIff(s: string, w: string)
    ensures Contains(s, w) <==> exists a, b :: s == a + w + b
  {
    if Contains(s, w) {
      var i :| 0 <= i <= |s| && OccursAt(s, w, i);
      assert s == s[..i] + w + s[i + |w|..];
    }
    if a, b :| s == a + w + b {
      assert OccursAt(s, w, |a|);
    }
  }

  lemma SingleChannelIff(w: string)
    ensures !SingleChannel(w) <==>
            (forall a, b :: w != a + "IV" + b) && (forall a, b :: Lower(w) != a + "leakagecurrent" + b)
  {
    hide Contains, Lower;
    ContainsIff(w, "IV");
    ContainsIff(Lower(w), "leakagecurrent");
  }

  lemma TwoPartsIff(w: string)
    ensures |SplitAt(w, '_')| != 2 <==> forall a, b :: w == a + "_" + b ==> '_' in a || '_' in b
  {
    hide SplitAt;
    if |SplitAt(w, '_')| == 2 {
      SplitTwo(w, '_');
      var parts := SplitAt(w, '_');
      assert w == parts[0] + "_" + parts[1];
    }
    if a, b :| w == a + "_" + b && '_' !in a && '_' !in b {
      SplitOnce(a, b, '_');
    }
  }

  /** Only tests that ask for no board can be for all of them. */
  lemma AsksForNoneIff(test: string)
    ensures AsksForNone(test) <==> BoardsFor(test) == AllBoards
  {
    hide SplitAt, SingleChannel, Lower, ParseInt, StripLeft, StripRight;
    TwoPartsIff(Which(test));
    SingleChannelIff(Which(test));
  }

  lemma {:induction false} StripLeftIs(l: string, m: string)
    requires TB(l) && (m != "" ==> m[0] != 'T' && m[0] != 'B')
    ensures StripLeft(l + m) == m
  {
    if l == "" {
      assert l + m == m;
    } else {
      assert l + m == [l[0]] + (l[1..] + m);
      StripsOne(l[0], l[1..] + m);
      StripLeftIs(l[1..], m);
    }
  }

  lemma {:induction false} StripRightIs(m: string, r: string)
    requires TB(r) && (m != "" ==> m[|m| - 1] != 'T' && m[|m| - 1] != 'B')
    ensures StripRight(m + r) == m
  {
    if r == "" {
      assert m + r == m;
    } else {
      assert (m + r)[..|m + r| - 1] == m + r[..|r| - 1];
      StripRightIs(m, r[..|r| - 1]);
    }
  }

  lemma {:induction false} StrippedLeft(s: string) returns (l: string)
    ensures TB(l) && s == l + StripLeft(s)
  {
    if s != "" && (s[0] == 'T' || s[0] == 'B') {
      l := StrippedLeft(s[1..]);
      l := [s[0]] + l;
    } else {
      l := "";
    }
  }

  lemma {:induction false} StrippedRight(s: string) returns (r: string)
    ensures TB(r) && s == StripRight(s) + r
  {
    if s != "" && (s[|s| - 1] == 'T' || s[|s| - 1] == 'B') {
      r := StrippedRight(s[..|s| - 1]);
      r := r + [s[|s| - 1]];
    } else {
      r := "";
    }
  }

  /** A test that asks for a board is for that board alone. */
  lemma AsksForOne(test: string, number: string)
    requires AsksFor(test, number)
    ensures BoardsFor(test) == OneBoard(Value(number)) && forall s: nat :: Prepares(test, s) <==> s == Value(number)
  {
    hide AsksForNone, SplitAt, SingleChannel, Value, StripLeft, StripRight, Which, TB, AllDigits, BoardsFor;
    AsksForNoneIff(test);
    var a, l, r :| Which(test) == a + "_" + (l + number + r) && '_' !in a && TB(l) && TB(r);
    var b := l + number + r;
    NumberInside(l, number, r);
    SplitOnce(a, b, '_');
    BoardIs(test, a, b);
  }

  lemma NumberInside(l: string, number: string, r: string)
    requires TB(l) && TB(r) && number != "" && AllDigits(number)
    ensures '_' !in l + number + r && StripRight(StripLeft(l + number + r)) == number
  {
    hide StripLeft, StripRight;
    assert l + number + r == l + (number + r) && (number + r)[0] == number[0];
    StripLeftIs(l, number + r);
    StripRightIs(number, r);
  }

  lemma BoardIs(test: string, a: string, b: string)
    requires SplitAt(Which(test), '_') == [a, b] && BoardsFor(test) != AllBoards
    ensures var n := StripRight(StripLeft(b));
            BoardsFor(test) == if n != "" && AllDigits(n) then OneBoard(Value(n)) else BadName
  {
    hide SplitAt, SingleChannel, Value, StripLeft, StripRight, Which, AllDigits;
  }

  /** A test that asks for a board without a number cannot be prepared. */
  lemma AsksForNothing(test: string)
    requires BoardsFor(test) != AllBoards && BoardsFor(test) != BadName
    ensures exists number :: AsksFor(test, number)
  {
    hide AsksForNone, SplitAt, SingleChannel, Value, StripLeft, StripRight;
    AsksForNoneIff(test);
    var w := Which(test);
    SplitTwo(w, '_');
    var parts := SplitAt(w, '_');
    var m := StripLeft(parts[1]);
    var l := StrippedLeft(parts[1]);
    var r := StrippedRight(m);
    var number := StripRight(m);
    assert parts[1] == l + number + r;
    assert w == parts[0] + "_" + (l + number + r);
    assert AsksFor(test, number);
  }

  /** Which boards a test is for, in all three cases. */
  lemma BoardsForIs(test: string)
    ensures AsksForNone(test) ==> forall s: nat :: Prepares(test, s)
    ensures forall number :: AsksFor(test, number) ==> forall s: nat :: Prepares(test, s) <==> s == Value(number)
    ensures BoardsFor(test) == BadName <==> !AsksForNone(test) && forall number :: !AsksFor(test, number)
  {
    hide AsksForNone, AsksFor, BoardsFor, Value;
    AsksForNoneIff(test);
    forall number | AsksFor(test, number)
      ensures BoardsFor(test) == OneBoard(Value(number)) && forall s: nat :: Prepares(test, s) <==> s == Value(number)
    {
      AsksForOne(test, number);
    }
    if BoardsFor(test) != AllBoards && BoardsFor(test) != BadName {
      AsksForNothing(test);
    }
  }

  // ----- which tests can be prepared -----

  /** The name that a test has while it runs. */
  function Current(test: string): string {
    var w := Which(test);
    if |SplitAt(w, '_')| != 2 then w
    else if Contains(w, "IV") then "IV"
    else if !Contains(Lower(w), "leakagecurrent") then w
    else if Contains(Lower(w), "pon") then "LeakageCurrentPON"
    else if Contains(Lower(w), "poff") then "LeakageCurrentPOFF"
    else w
  }

  /** The one kind of test whose directories are deleted after it. */
  predicate PowerCycle(test: string) {
    Current(test) == "powercycle"
  }

  lemma PowerCycleIff(test: string)
    ensures PowerCycle(test) <==> Which(test) == "powercycle"
  {
    hide Contains, Lower;
    SplitNothing("powercycle", '_');
    assert |"IV"| == 2 && |"LeakageCurrentPON"| == 17 && |"LeakageCurrentPOFF"| == 18 && |"powercycle"| == 10;
  }

  /** How tests are called while they run. */
  lemma CurrentIs()
    ensures Current("IV_TB3@17") == "IV"
    ensures Current("LeakageCurrentPON_TB0@17") == "LeakageCurrentPON"
    ensures Current("leakagecurrentPoff_TB0@17") == "LeakageCurrentPOFF"
    ensures Current("Fulltest@17") == "Fulltest"
  {
    CurrentIv();
    CurrentPon();
    CurrentPoff();
    CurrentOther();
  }

  lemma CurrentOf(test: string, w: string)
    requires '@' !in w && test == w + "@" + "17"
    ensures Current(test)
            == if |SplitAt(w, '_')| != 2 then w
               else if Contains(w, "IV") then "IV"
               else if !Contains(Lower(w), "leakagecurrent") then w
               else if Contains(Lower(w), "pon") then "LeakageCurrentPON"
               else if Contains(Lower(w), "poff") then "LeakageCurrentPOFF"
               else w
  {
    hide Contains, SplitAt, Lower, Which;
    SplitsAt(w, "17");
  }

  lemma CurrentIv()
    ensures Current("IV_TB3@17") == "IV"
  {
    hide Contains, SplitAt, Lower, Current;
    var w := "IV_TB3";
    assert "IV_TB3@17" == w + "@" + "17";
    CurrentOf("IV_TB3@17", w);
    assert w == "IV" + ['_'] + "TB3";
    SplitOnce("IV", "TB3", '_');
    ContainsAt(w, "IV", 0);
  }

  lemma CurrentOther()
    ensures Current("Fulltest@17") == "Fulltest"
  {
    hide Contains, SplitAt, Lower, Current;
    assert "Fulltest@17" == "Fulltest" + "@" + "17";
    CurrentOf("Fulltest@17", "Fulltest");
    SplitNothing("Fulltest", '_');
  }

  lemma CurrentPon()
    ensures Current("LeakageCurrentPON_TB0@17") == "LeakageCurrentPON"
  {
    hide Contains, SplitAt, Lower, Current;
    var w := "LeakageCurrentPON_TB0";
    assert "LeakageCurrentPON_TB0@17" == w + "@" + "17";
    CurrentOf("LeakageCurrentPON_TB0@17", w);
    assert w == "LeakageCurrentPON" + ['_'] + "TB0";
    SplitOnce("LeakageCurrentPON", "TB0", '_');
    NotIn(w, "IV");
    LowerPon();
    var u := "leakagecurrentpon_tb0";
    ContainsAt(u, "leakagecurrent", 0);
    ContainsAt(u, "pon", 14);
  }

  lemma CurrentPoff()
    ensures Current("leakagecurrentPoff_TB0@17") == "LeakageCurrentPOFF"
  {
    hide Contains, SplitAt, Lower, Current;
    var w := "leakagecurrentPoff_TB0";
    assert "leakagecurrentPoff_TB0@17" == w + "@" + "17";
    CurrentOf("leakagecurrentPoff_TB0@17", w);
    assert w == "leakagecurrentPoff" + ['_'] + "TB0";
    SplitOnce("leakagecurrentPoff", "TB0", '_');
    NotIn(w, "IV");
    LowerPoff();
    var v := "leakagecurrentpoff_tb0";
    ContainsAt(v, "leakagecurrent", 0);
    ContainsAt(v, "poff", 14);
    NoPon();
  }

  lemma ContainsAt(s: string, w: string, i: nat)
    requires i + |w| <= |s| && s[i..i + |w|] == w
    ensures Contains(s, w)
  {
    assert OccursAt(s, w, i);
  }

  lemma NoPon()
    ensures !Contains("leakagecurrentpoff_tb0", "pon")
  {
    var v := "leakagecurrentpoff_tb0";
    forall i | 0 <= i <= |v|
      ensures !OccursAt(v, "pon", i)
    {
      assert i + 3 <= |v| ==> v[i..i + 3][0] == v[i] && v[i..i + 3][2] == v[i + 2];
      assert forall k :: 0 <= k < |v| && v[k] == 'p' ==> k == 14;
      assert "pon"[0] == 'p' && "pon"[2] == 'n' && v[16] == 'f';
    }
  }

  lemma LowerPon()
    ensures Lower("LeakageCurrentPON_TB0") == "leakagecurrentpon_tb0"
  {
  }

  lemma LowerPoff()
    ensures Lower("leakagecurrentPoff_TB0") == "leakagecurrentpoff_tb0"
  {
  }

  lemma NotIn(s: string, w: string)
    requires w != "" && w[0] !in s
    ensures !Contains(s, w)
  {
    forall i | 0 <= i <= |s|
      ensures !OccursAt(s, w, i)
    {
      assert i + |w| <= |s| ==> s[i..i + |w|][0] == s[i] && s[i] in s;
    }
  }

  lemma PowerCycleIsForAll(test: string)
    requires PowerCycle(test)
    ensures !SingleChannel("powercycle") && BoardsFor(test) == AllBoards
    ensures forall s :: Prepares(test, s)
  {
    hide SplitAt;
    assert 'I' !in "powercycle";
    assert |Lower("powercycle")| == 10;
    forall i | 0 <= i <= 10
      ensures !OccursAt("powercycle", "IV", i)
    {
      assert i + 2 <= 10 ==> "powercycle"[i..i + 2][0] == "powercycle"[i] != "IV"[0];
    }
  }

  /** What a run starts with: default directories, the boards' slots, and those slots whose
      default directories exist. */
  datatype Setup = Setup(defaults: seq<string>, slots: set<nat>, provided: set<nat>)

  /** Whether a test can be prepared below tests of the given names: its board can be told from
      its name, there is a default directory for every board it is for, and it is for none
      if the directories it would need were deleted after a power cycle. */
  ghost predicate Fit(above: seq<string>, test: string, setup: Setup) {
    && BoardsFor(test) != BadName
    && (forall s :: s in setup.slots && Prepares(test, s) ==> s in setup.provided)
    && ((exists a :: a in above && PowerCycle(a)) ==> forall s :: s in setup.slots ==> !Prepares(test, s))
  }

  // ----- where a directory comes from -----

  /** The directory of a slot as the nearest of these tests that prepared the slot left it,
      or the default directory if none of them did. */
  ghost function Nearest(tests: seq<Item>, defaults: seq<string>, slot: nat): string
    requires slot < |defaults|
    reads set i | i in tests :: i.node
  {
    if tests == [] then defaults[slot]
    else
      var last := tests[|tests| - 1].node;
      if slot in last.copies then last.copies[slot].to else Nearest(tests[..|tests| - 1], defaults, slot)
  }

  lemma {:induction false} NearestIs(tests: seq<Item>, defaults: seq<string>, slot: nat, k: int)
    requires slot < |defaults| && -1 <= k < |tests|
    requires forall i :: k < i < |tests| ==> slot !in tests[i].node.copies
    requires k >= 0 ==> slot in tests[k].node.copies
    ensures Nearest(tests, defaults, slot) == if k < 0 then defaults[slot] else tests[k].node.copies[slot].to
  {
    if |tests| - 1 > k {
      NearestIs(tests[..|tests| - 1], defaults, slot, k);
    }
  }

  function Names(tests: seq<Item>): (r: seq<string>)
    ensures |r| == |tests| && forall i :: 0 <= i < |tests| ==> r[i] == tests[i].name
  {
    seq(|tests|, i requires 0 <= i < |tests| => tests[i].name)
  }

  /** A test that has been prepared, below the given ancestors. */
  ghost predicate Prepared(above: seq<Item>, test: Item, setup: Setup)
    reads set i | i in above :: i.node
    reads test.node
  {
    && test.node.parameterDir.Some? && |test.node.parameterDir.value| == |setup.defaults|
    && (forall s :: 0 <= s < |setup.defaults| ==>
          test.node.parameterDir.value[s] ==
          if s in test.node.copies then test.node.copies[s].to else Nearest(above, setup.defaults, s))
    && (forall s :: s in test.node.copies <==> s in setup.slots && Prepares(test.name, s))
    && (forall s :: s in test.node.copies ==>
          s < |setup.defaults| && test.node.copies[s].from == Nearest(above, setup.defaults, s))
    && Fit(Names(above), test.name, setup)
  }

  /** All tests of a forest have been prepared. */
  ghost predicate AllPrepared(ts: seq<Shape>, above: seq<Item>, setup: Setup)
    reads NodeSet(ts), set i | i in above :: i.node
  {
    ts == [] ||
    (Prepared(above, ts[0].val, setup) &&
     AllPrepared(ts[0].kids, above + [ts[0].val], setup) &&
     AllPrepared(ts[1..], above, setup))
  }

  lemma {:induction false} AllPreparedAppend(a: seq<Shape>, b: seq<Shape>, above: seq<Item>, setup: Setup)
    ensures AllPrepared(a + b, above, setup) <==> AllPrepared(a, above, setup) && AllPrepared(b, above, setup)
  {
    if a == [] {
      assert a + b == b;
    } else {
      assert (a + b)[1..] == a[1..] + b;
      AllPreparedAppend(a[1..], b, above, setup);
    }
  }

  ghost function Ancestors(c: Place): seq<Item> {
    if c.Top? then [] else Ancestors(c.up) + [c.above]
  }

  lemma {:induction false} AncestorsInPlace(c: Place)
    ensures forall i :: i in Ancestors(c) ==> i.node in PlaceSet(c)
  {
    if c.In? {
      AncestorsInPlace(c.up);
    }
  }

  /** Everything before a place in preorder has been prepared; the root has the default directories. */
  ghost predicate PreparedUpTo(c: Place, setup: Setup)
    reads PlaceSet(c)
    decreases c
  {
    AncestorsInPlace(c);
    match c
    case Top => true
    case In(up, above, left, right) =>
      && (if up.Top? then IsRoot(above, setup) else Prepared(Ancestors(up), above, setup))
      && PreparedUpTo(up, setup)
      && AllPrepared(left, Ancestors(c), setup)
  }

  ghost predicate IsRoot(root: Item, setup: Setup)
    reads root.node
  {
    root.node.parameterDir == Some(setup.defaults) && root.node.copies == map[] && !PowerCycle(root.name)
  }

  lemma {:induction false} ClimbPrepared(c: Place, t: Shape, setup: Setup)
    requires c.In? && PreparedUpTo(c, setup)
    requires AllPrepared([t], Ancestors(c), setup)
    ensures Climb(c, t).Spot? ==> PreparedUpTo(Climb(c, t).place, setup)
    ensures Climb(c, t).Nowhere? ==>
              |Plug(c, [t])| == 1 && AllPrepared(Plug(c, [t])[0].kids, [Outer(c)], setup)
  {
    AllPreparedAppend(c.left, [t], Ancestors(c), setup);
    PlugOuter(c, [t]);
    if c.right == [] {
      var s := Tree(c.above, c.left + [t]);
      assert c.left + [t] + c.right == s.kids;
      if c.up.In? {
        assert [s][1..] == [];
        ClimbPrepared(c.up, s, setup);
      } else {
        assert Ancestors(c) == [c.above];
      }
    }
  }

  lemma StepPrepared(c: Place, t: Shape, setup: Setup)
    requires c.In? && PreparedUpTo(c, setup) && Prepared(Ancestors(c), t.val, setup)
    ensures Step(c, t).Spot? ==> PreparedUpTo(Step(c, t).place, setup)
    ensures Step(c, t).Nowhere? ==>
              |Plug(c, [t])| == 1 && AllPrepared(Plug(c, [t])[0].kids, [Outer(c)], setup)
  {
    if t.kids == [] {
      AllPreparedLeaf(t, Ancestors(c), setup);
      ClimbPrepared(c, t, setup);
    }
  }

  lemma AllPreparedLeaf(t: Shape, above: seq<Item>, setup: Setup)
    requires t.kids == [] && Prepared(above, t.val, setup)
    ensures AllPrepared([t], above, setup)
  {
    hide Prepared;
    assert [t][1..] == [] && [t][0] == t;
    assert AllPrepared([], above, setup) && AllPrepared(t.kids, above + [t.val], setup);
  }

  // ----- the agente that sets up the directories -----

  class Testboard {
    const slot: nat
    const parentDir: string
    var numerator: nat
    var testdir: string

    constructor (slot: nat, parentDir: string)
      ensures this.slot == slot && this.parentDir == parentDir && numerator == 0
    {
      this.slot := slot;
      this.parentDir := parentDir;
      numerator := 0;
      testdir := "";
    }
  }

  function Zfill(n: nat): string {
    var d := Digits(n);
    if |d| >= 3 then d else if |d| == 2 then "0" + d else "00" + d
  }

  function TestDir(parentDir: string, numerator: nat, cur: string, temp: string): string {
    parentDir + "/" + Zfill(numerator) + "_" + cur + "_" + temp + "/"
  }

  lemma {:induction false} ValueOfZero(d: string)
    requires AllDigits(d)
    ensures AllDigits("0" + d) && Value("0" + d) == Value(d)
  {
    if d != "" {
      var n := |d| - 1;
      ValueOfZero(d[..n]);
      assert ("0" + d)[..n + 1] == "0" + d[..n];
    } else {
      assert "0" + d == "0" && "0"[..0] == "";
    }
  }

  lemma ZfillIs(n: nat)
    ensures AllDigits(Zfill(n)) && Value(Zfill(n)) == n
  {
    hide Value, Digits;
    var d := Digits(n);
    ValueOfDigits(n);
    ValueOfZero(d);
    ValueOfZero("0" + d);
    assert "0" + ("0" + d) == "00" + d;
  }

  lemma {:induction false} DigitsInFront(x: string, a: string, y: string, b: string)
    requires AllDigits(x) && AllDigits(y) && a != "" && b != "" && a[0] == '_' == b[0]
    requires x + a == y + b
    ensures x == y
  {
    assert if x == "" then (x + a)[0] == '_' else (x + a)[0] == x[0];
    assert if y == "" then (y + b)[0] == '_' else (y + b)[0] == y[0];
    if x != "" && y != "" {
      assert (x + a)[1..] == x[1..] + a && (y + b)[1..] == y[1..] + b;
      DigitsInFront(x[1..], a, y[1..], b);
    }
  }

  /** The number is filled up with zeros to three digits. */
  lemma ZfillPads(n: nat)
    ensures var d, z := Digits(n), Zfill(n);
            && |z| == (if |d| < 3 then 3 else |d|) && z[|z| - |d|..] == d
            && forall i :: 0 <= i < |z| - |d| ==> z[i] == '0'
  {
    hide Digits;
  }

  lemma TestDirIs()
    ensures TestDir("data/M1", 7, "IV", "p17") == "data/M1/007_IV_p17/"
  {
    hide Zfill, Digits;
    DigitsIs(7);
    ZfillPads(7);
    assert Zfill(7) == "007";
  }

  /** Directories with different numbers are different, whatever the tests are called. */
  lemma TestDirsDiffer(parentDir: string, n: nat, m: nat, cur: string, temp: string, cur': string, temp': string)
    requires n != m
    ensures TestDir(parentDir, n, cur, temp) != TestDir(parentDir, m, cur', temp')
  {
    hide Zfill, Value;
    ZfillIs(n);
    ZfillIs(m);
    var f := parentDir + "/";
    var a, b := "_" + cur + "_" + temp + "/", "_" + cur' + "_" + temp' + "/";
    DirParts(parentDir, n, cur, temp);
    DirParts(parentDir, m, cur', temp');
    if f + (Zfill(n) + a) == f + (Zfill(m) + b) {
      assert (f + (Zfill(n) + a))[|f|..] == Zfill(n) + a && (f + (Zfill(m) + b))[|f|..] == Zfill(m) + b;
      DigitsInFront(Zfill(n), a, Zfill(m), b);
    }
  }

  lemma DirParts(parentDir: string, n: nat, cur: string, temp: string)
    ensures TestDir(parentDir, n, cur, temp) == (parentDir + "/") + (Zfill(n) + ("_" + cur + "_" + temp + "/"))
  {
    hide Zfill;
  }

  /** The directory that a board has next for a test. */
  ghost function NextDir(b: Testboard, test: string, temp: string): string
    reads b`numerator
  {
    TestDir(b.parentDir, b.numerator, Current(test), temp)
  }

  /** No board's directory lies in another one's. */
  predicate Separate(boards: seq<Testboard>) {
    forall i, j :: 0 <= i < |boards| && 0 <= j < |boards| && i != j ==>
      !(boards[i].parentDir + "/" <= boards[j].parentDir + "/")
  }

  /** No directory of these has a number that is still to come on some board. */
  ghost predicate Fresh(boards: seq<Testboard>, dirs: set<string>)
    reads boards`numerator
  {
    forall b, k: nat, cur, temp :: b in boards && k >= b.numerator ==> TestDir(b.parentDir, k, cur, temp) !in dirs
  }

  lemma BoardsDiffer(p: string, q: string, n: nat, m: nat, cur: string, temp: string, cur': string, temp': string)
    requires !(p + "/" <= q + "/") && !(q + "/" <= p + "/")
    ensures TestDir(p, n, cur, temp) != TestDir(q, m, cur', temp')
  {
    hide Zfill;
    var x, y := TestDir(p, n, cur, temp), TestDir(q, m, cur', temp');
    DirParts(p, n, cur, temp);
    DirParts(q, m, cur', temp');
    assert p + "/" <= x && q + "/" <= y;
    PrefixesNest(p + "/", q + "/", x);
  }

  lemma PrefixesNest(a: string, b: string, x: string)
    ensures a <= x && b <= x ==> a <= b || b <= a
  {
  }

  /** What preparing a test on boards has changed: there are new directories of these boards,
      and no others, and the test has one of them in each of the slots it is for. */
  ghost predicate Made(was: set<string>, now: set<string>, copies: map<nat, Copy>, boards: seq<Testboard>, test: string, temp: string)
    reads boards`numerator, boards`testdir
  {
    && was <= now
    && (forall d :: d in now && d !in was ==>
          exists b :: b in boards && Prepares(test, b.slot) && d == NextDir(b, test, temp))
    && (forall b :: b in boards && Prepares(test, b.slot) ==>
          b.testdir == NextDir(b, test, temp) && b.testdir in now && b.testdir !in was)
    && (forall s :: s in copies ==> copies[s].to in now && copies[s].to !in was && Own(s, copies[s], boards, test, temp))
    && (forall s, r :: s in copies && r in copies && s != r ==> copies[s].to != copies[r].to)
  }

  /** The copy is the next directory of a board in the slot. */
  ghost predicate Own(slot: nat, copy: Copy, boards: seq<Testboard>, test: string, temp: string)
    reads boards`numerator
  {
    exists b :: b in boards && b.slot == slot && Prepares(test, slot)
                && copy.number == b.numerator && copy.to == NextDir(b, test, temp)
  }

  lemma MadeNothing(was: set<string>, test: string, temp: string)
    ensures Made(was, was, map[], [], test, temp)
  {
  }

  lemma MadeOne(was: set<string>, now: set<string>, copies: map<nat, Copy>, boards: seq<Testboard>, b: Testboard, copy: Copy,
                test: string, temp: string)
    requires Made(was, now, copies, boards, test, temp) && Prepares(test, b.slot)
    requires copy.number == b.numerator && copy.to == b.testdir == NextDir(b, test, temp) && copy.to !in now
    ensures Made(was, now + {copy.to}, copies[b.slot := copy], boards + [b], test, temp)
  {
    hide NextDir, Prepares;
    var all := boards + [b];
    assert b in all && forall c :: c in boards ==> c in all;
    forall s | s in copies
      ensures Own(s, copies[s], all, test, temp)
    {
      var c :| c in boards && c.slot == s && copies[s].number == c.numerator && copies[s].to == NextDir(c, test, temp);
      assert c in all;
    }
    assert Own(b.slot, copy, all, test, temp);
  }

  lemma MadeSkipping(was: set<string>, now: set<string>, copies: map<nat, Copy>, boards: seq<Testboard>, b: Testboard,
                     test: string, temp: string)
    requires Made(was, now, copies, boards, test, temp) && !Prepares(test, b.slot)
    ensures Made(was, now, copies, boards + [b], test, temp)
  {
    hide NextDir, Prepares;
    var all := boards + [b];
    assert forall c :: c in boards ==> c in all;
    forall s | s in copies
      ensures Own(s, copies[s], all, test, temp)
    {
      var c :| c in boards && c.slot == s && copies[s].number == c.numerator && copies[s].to == NextDir(c, test, temp);
      assert c in all;
    }
  }

  /** What has been made for other boards is not in the way of this one. */
  lemma MadeElsewhere(was: set<string>, now: set<string>, copies: map<nat, Copy>, boards: seq<Testboard>, i: nat,
                      test: string, temp: string)
    requires i < |boards| && Made(was, now, copies, boards[..i], test, temp)
    requires Separate(boards) && Fresh(boards, was)
    ensures NextDir(boards[i], test, temp) !in now && boards[i] !in boards[..i]
  {
    hide Prepares, TestDir, Current;
    var b := boards[i];
    assert b in boards;
    forall c | c in boards[..i]
      ensures c != b && NextDir(c, test, temp) != NextDir(b, test, temp)
    {
      var j :| 0 <= j < i && boards[..i][j] == c;
      assert c == boards[j];
      BoardsDiffer(c.parentDir, b.parentDir, c.numerator, b.numerator, Current(test), temp, Current(test), temp);
    }
  }

  /** The directory is named after its number on a board in the slot. */
  ghost predicate Named(slot: nat, copy: Copy, boards: seq<Testboard>, test: string, temp: string) {
    exists b :: b in boards && b.slot == slot && copy.to == TestDir(b.parentDir, copy.number, Current(test), temp)
  }

  lemma MadeNamed(was: set<string>, now: set<string>, copies: map<nat, Copy>, boards: seq<Testboard>, test: string, temp: string)
    requires Made(was, now, copies, boards, test, temp)
    ensures forall s :: s in copies ==> Named(s, copies[s], boards, test, temp)
  {
    hide TestDir, Current, Prepares;
  }

  /** Directories that no board will ever make are neither made nor deleted. */
  lemma MadeOutside(was: set<string>, now: set<string>, copies: map<nat, Copy>, boards: seq<Testboard>, test: string, temp: string,
                    outside: set<string>)
    requires Made(was, now, copies, boards, test, temp) && Fresh(boards, outside)
    ensures forall d :: d in outside ==> (d in now <==> d in was)
  {
    hide TestDir, Current, Prepares;
  }

  /** What is still to come on the boards when the numbers of those used have advanced. */
  lemma MadeFresh(was: set<string>, now: set<string>, copies: map<nat, Copy>, boards: seq<Testboard>, test: string, temp: string,
                  b: Testboard, k: nat, cur: string, temp': string)
    requires Made(was, now, copies, boards, test, temp) && Separate(boards) && Fresh(boards, was)
    requires b in boards && k >= b.numerator + if Prepares(test, b.slot) then 1 else 0
    ensures TestDir(b.parentDir, k, cur, temp') !in now
  {
    hide TestDir, Current, Prepares;
    forall c | c in boards && Prepares(test, c.slot)
      ensures NextDir(c, test, temp) != TestDir(b.parentDir, k, cur, temp')
    {
      if c == b {
        TestDirsDiffer(b.parentDir, b.numerator, k, Current(test), temp, cur, temp');
      } else {
        var i :| 0 <= i < |boards| && boards[i] == b;
        var j :| 0 <= j < |boards| && boards[j] == c;
        BoardsDiffer(c.parentDir, b.parentDir, c.numerator, k, Current(test), temp, cur, temp');
      }
    }
  }

  class PsiAgente {
    const testboards: seq<Testboard>
    var test: TestChain?
    var currenttest: string
    /** The slot of the one board that the current test is for, or -1. */
    var activeTestboard: int
    /** The directories that exist. An empty one does not count: it is removed before it
        would be in the way. */
    var existing: set<string>

    constructor (testboards: seq<Testboard>, existing: set<string>)
      ensures this.testboards == testboards && this.existing == existing && test == null
    {
      this.testboards, this.existing := testboards, existing;
      test := null;
      currenttest := "";
      activeTestboard := -1;
    }

    ghost function Slots(): set<nat> {
      set j | 0 <= j < |testboards| :: testboards[j].slot
    }

    /** A test starts out with a copy of its parent's list of directories. */
    method SetTest(t: TestChain)
      requires t.parent != null && t.parent.parameterDir.Some?
      modifies `test, t`parameterDir, t`copies
      ensures test == t && t.parameterDir == old(t.parent.parameterDir) && t.copies == map[]
    {
      test := t;
      t.parameterDir := t.parent.parameterDir;
      t.copies := map[];
    }

    predicate ForBoard(slot: nat)
      reads `currenttest, `activeTestboard
    {
      !(SingleChannel(currenttest) && slot != activeTestboard && activeTestboard > -1)
    }

    /** Finds out which board a test is for; fails where no number follows the underscore. */
    method SelectBoard(whichtest: string) returns (ok: bool)
      modifies `currenttest, `activeTestboard
      ensures ok <==> BoardsFor(whichtest) != BadName
      ensures currenttest == Current(whichtest)
      ensures ok ==> forall slot: nat :: Prepares(whichtest, slot) <==> ForBoard(slot)
      ensures AsksForNone(whichtest) ==> ok && forall slot: nat :: ForBoard(slot)
      ensures forall number :: AsksFor(whichtest, number) ==> ok && forall slot: nat :: ForBoard(slot) <==> slot == Value(number)
      ensures !ok <==> !AsksForNone(whichtest) && forall number :: !AsksFor(whichtest, number)
    {
      hide AsksForNone, AsksFor, Value;
      BoardsForIs(whichtest);
      activeTestboard := -1;
      currenttest := Which(whichtest);
      var board: Option<nat> := None;
      ok := true;
      if Contains(currenttest, "IV") {
        var parts := SplitAt(currenttest, '_');
        if |parts| == 2 {
          currenttest := "IV";
          assert OccursAt("IV", "IV", 0);
          board := ParseInt(StripRight(StripLeft(parts[1])));
          ok := board.Some?;
        }
      } else if Contains(Lower(currenttest), "leakagecurrent") {
        var parts := SplitAt(currenttest, '_');
        if |parts| == 2 {
          if Contains(Lower(currenttest), "pon") {
            currenttest := "LeakageCurrentPON";
            KnownLeakageTests();
          } else if Contains(Lower(currenttest), "poff") {
            currenttest := "LeakageCurrentPOFF";
            KnownLeakageTests();
          }
          board := ParseInt(StripRight(StripLeft(parts[1])));
          ok := board.Some?;
        }
      }
      if board.Some? {
        activeTestboard := board.value;
      }
    }

    /** Whether there is a directory to copy from for the board at index j: one that existed
        before, or one made for a board before it. */
    ghost predicate Supplied(whichtest: string, temp: string, dirs: seq<string>, was: set<string>, j: nat)
      requires j < |testboards|
      reads testboards`numerator
    {
      var s := testboards[j].slot;
      Prepares(whichtest, s) ==>
        s < |dirs| && (dirs[s] in was || exists b ::
          b in testboards[..j] && Prepares(whichtest, b.slot) && dirs[s] == NextDir(b, whichtest, temp))
    }

    /** Sets up the test's directory on every board that the test is for. It fails exactly
        where the board cannot be told from the name, or a directory to copy is missing. */
    method PrepareTest(whichtest: string, temp: string) returns (ok: bool)
      requires test != null && test.parent != null && test.parent != test
      requires test.parent.parameterDir.Some? && test.parameterDir == test.parent.parameterDir && test.copies == map[]
      requires Separate(testboards) && Fresh(testboards, existing)
      modifies `currenttest, `activeTestboard, `existing, test`parameterDir, test`copies, testboards`testdir
      ensures ok <==> BoardsFor(whichtest) != BadName &&
                      forall j :: 0 <= j < |testboards| ==>
                        Supplied(whichtest, temp, test.parent.parameterDir.value, old(existing), j)
      ensures ok ==> CopiedFor(test, test.parent.parameterDir.value, whichtest, Slots())
      ensures ok ==> Made(old(existing), existing, test.copies, testboards, whichtest, temp)
      ensures ok ==> currenttest == Current(whichtest) && forall slot: nat :: Prepares(whichtest, slot) <==> ForBoard(slot)
      ensures ok && AsksForNone(whichtest) ==> forall s :: s in test.copies <==> s in Slots()
      ensures forall number :: ok && AsksFor(whichtest, number) ==>
                forall s :: s in test.copies <==> s in Slots() && s == Value(number)
      ensures ok ==> AsksForNone(whichtest) || exists number :: AsksFor(whichtest, number)
    {
      hide BoardsFor, CopiedFor, ForBoard, Prepares, Made, NextDir, Supplied, Current, AsksForNone, AsksFor, Value;
      BoardsForIs(whichtest);
      ghost var dirs := test.parent.parameterDir.value;
      ghost var was := existing;
      NothingCopied(test, whichtest);
      MadeNothing(was, whichtest, temp);
      ghost var done: set<nat> := {};
      ok := SelectBoard(whichtest);
      if !ok {
        return;
      }
      assert testboards[..0] == [];
      for i := 0 to |testboards|
        invariant unchanged(`test) && test.parent == old(test.parent)
        invariant test.parent.parameterDir == Some(dirs)
        invariant Made(was, existing, test.copies, testboards[..i], whichtest, temp)
        invariant CopiedFor(test, dirs, whichtest, done) && done == set j | 0 <= j < i :: testboards[j].slot
        invariant currenttest == Current(whichtest) && forall s: nat :: Prepares(whichtest, s) <==> ForBoard(s)
        invariant forall j :: 0 <= j < i ==> Supplied(whichtest, temp, dirs, was, j)
      {
        MadeElsewhere(was, existing, test.copies, testboards, i, whichtest, temp);
        SuppliedIff(whichtest, temp, dirs, was, i);
        assert testboards[..i + 1] == testboards[..i] + [testboards[i]];
        ok := PrepareTestboard(testboards[i], temp, whichtest, done, was, testboards[..i]);
        if !ok {
          assert !Supplied(whichtest, temp, dirs, was, i);
          return;
        }
        done := done + {testboards[i].slot};
      }
      assert testboards[..|testboards|] == testboards;
      CopiesIn(test, dirs, whichtest, done);
    }

    lemma SuppliedIff(whichtest: string, temp: string, dirs: seq<string>, was: set<string>, i: nat)
      requires i < |testboards| && test != null
      requires Made(was, existing, test.copies, testboards[..i], whichtest, temp)
      ensures var s := testboards[i].slot;
              Supplied(whichtest, temp, dirs, was, i) <==>
              (Prepares(whichtest, s) ==> s < |dirs| && dirs[s] in existing)
    {
      hide NextDir, Prepares;
    }

    /** Skips a board that a single-channel test is not for; else makes the test's directory
        there as a copy of the parent's. Fails where the directory to copy is missing, or the
        one to make exists already. */
    method PrepareTestboard(board: Testboard, temp: string, ghost whichtest: string, ghost done: set<nat>,
                            ghost was: set<string>, ghost before: seq<Testboard>)
      returns (ok: bool)
      requires test != null && test.parent != null && test.parent != test && test.parent.parameterDir.Some?
      requires CopiedFor(test, test.parent.parameterDir.value, whichtest, done)
      requires Made(was, existing, test.copies, before, whichtest, temp) && board !in before
      requires currenttest == Current(whichtest) && (Prepares(whichtest, board.slot) <==> ForBoard(board.slot))
      modifies test`parameterDir, test`copies, board`testdir, `existing
      ensures ok <==> (Prepares(whichtest, board.slot) ==>
                && board.slot < |test.parent.parameterDir.value|
                && test.parent.parameterDir.value[board.slot] in old(existing)
                && NextDir(board, whichtest, temp) !in old(existing))
      ensures ok ==> CopiedFor(test, test.parent.parameterDir.value, whichtest, done + {board.slot})
      ensures ok ==> Made(was, existing, test.copies, before + [board], whichtest, temp)
    {
      hide TestDir, Prepares, Made, Current;
      if SingleChannel(currenttest) {
        if board.slot != activeTestboard && activeTestboard > -1 {
          MadeSkipping(was, existing, test.copies, before, board, whichtest, temp);
          return true;
        }
      }
      board.testdir := TestDir(board.parentDir, board.numerator, currenttest, temp);
      if board.slot >= |test.parent.parameterDir.value| {
        return false;
      }
      test.parameterDir := Some(test.parameterDir.value[board.slot := board.testdir]);
      if test.parent.parameterDir.value[board.slot] !in existing || board.testdir in existing {
        return false;
      }
      var copy := Copy(test.parent.parameterDir.value[board.slot], board.testdir, board.numerator);
      MadeOne(was, existing, test.copies, before, board, copy, whichtest, temp);
      existing := existing + {board.testdir};
      test.copies := test.copies[board.slot := copy];
      ok := true;
    }

    /** Moves on to the next directory number on every board that the test was run on. After
        a power cycle the directories are deleted instead. */
    method CleanupTest()
      modifies testboards`numerator, `existing
      ensures forall b :: b in testboards ==>
                b.numerator == old(b.numerator) + if Advances(b.slot) then multiset(testboards)[b] else 0
      ensures existing == if SingleChannel(currenttest) || currenttest != "powercycle" then old(existing)
                          else old(existing) - set b | b in testboards :: b.testdir
    {
      ghost var deleted: set<string> := {};
      for i := 0 to |testboards|
        invariant forall b :: b in testboards ==>
          b.numerator == old(b.numerator) + if Advances(b.slot) then multiset(testboards[..i])[b] else 0
        invariant existing == if SingleChannel(currenttest) || currenttest != "powercycle" then old(existing)
                              else old(existing) - set b | b in testboards[..i] :: b.testdir
      {
        assert testboards[..i + 1] == testboards[..i] + [testboards[i]];
        var b := testboards[i];
        if SingleChannel(currenttest) {
          if b.slot == activeTestboard || activeTestboard < 0 {
            b.numerator := b.numerator + 1;
          }
        } else if currenttest != "powercycle" {
          b.numerator := b.numerator + 1;
        } else {
          existing := existing - {b.testdir};
        }
      }
      assert testboards[..|testboards|] == testboards;
    }

    predicate Advances(slot: nat)
      reads `currenttest, `activeTestboard
    {
      if SingleChannel(currenttest) then ForBoard(slot) else currenttest != "powercycle"
    }
  }

  /** The test has the parent's directories, except in the slots of those boards it is for:
      there it has its own directory, copied from the parent's. */
  ghost predicate CopiedFor(test: TestChain, dirs: seq<string>, whichtest: string, slots: set<nat>)
    reads test
  {
    && test.parameterDir.Some? && |test.parameterDir.value| == |dirs|
    && (forall s :: 0 <= s < |dirs| ==>
          test.parameterDir.value[s] == if s in test.copies then test.copies[s].to else dirs[s])
    && (forall s :: s in test.copies <==> s in slots && Prepares(whichtest, s))
    && (forall s :: s in test.copies ==> s < |dirs| && test.copies[s].from == dirs[s])
  }

  lemma CopiesIn(test: TestChain, dirs: seq<string>, whichtest: string, slots: set<nat>)
    requires CopiedFor(test, dirs, whichtest, slots)
    ensures forall s :: s in test.copies <==> s in slots && Prepares(whichtest, s)
  {
    hide Prepares;
  }

  lemma NothingCopied(test: TestChain, whichtest: string)
    requires test.parameterDir.Some? && test.copies == map[]
    ensures CopiedFor(test, test.parameterDir.value, whichtest, {})
  {
  }

  lemma KnownLeakageTests()
    ensures SingleChannel("LeakageCurrentPON") && SingleChannel("LeakageCurrentPOFF")
  {
    var s := "LeakageCurrent";
    PerBoardIsSingleChannel("LeakageCurrentPON", "");
    PerBoardIsSingleChannel("LeakageCurrentPOFF", "");
    assert "LeakageCurrentPON" + "" == "LeakageCurrentPON" && "LeakageCurrentPOFF" + "" == "LeakageCurrentPOFF";
  }
}
