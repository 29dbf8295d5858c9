/** The in-place tokenizer for management commands: C strings in a buffer, tokens as offsets into it. */
module CommandParser {

  const NUL: char := '\0'

  predicate Blank(c: char) {
    c == ' ' || c == '\t'
  }

  // ----- the fields of a line -----

  /** Whether a field ends before a character: blanks separate fields, and a zero byte hides
      the rest of one. */
  predicate Ends(c: char) {
    Blank(c) || c == NUL
  }

  /** Whether a field begins at p. */
  predicate IsStart(s: string, p: int) {
    0 <= p < |s| && !Ends(s[p]) && (p == 0 || Blank(s[p - 1]))
  }

  /** Where fields begin, among the first n positions, in order. */
  function FieldStarts(s: string, n: nat): seq<nat> {
    if n == 0 then [] else FieldStarts(s, n - 1) + if IsStart(s, n - 1) then [n - 1] else []
  }

  lemma {:induction false} FieldStartsAre(s: string, n: nat)
    ensures var r := FieldStarts(s, n);
            && (forall p: nat :: p in r <==> p < n && IsStart(s, p))
            && (forall i, j :: 0 <= i < j < |r| ==> r[i] < r[j])
  {
    if n > 0 {
      var r := FieldStarts(s, n - 1);
      FieldStartsAre(s, n - 1);
      assert forall i :: 0 <= i < |r| ==> r[i] in r;
    }
  }

  function FieldEnd(s: string, p: nat): (e: nat)
    requires p <= |s|
    ensures p <= e <= |s| && (e < |s| ==> Ends(s[e]))
    ensures forall i :: p <= i < e ==> !Ends(s[i])
    decreases |s| - p
  {
    if p < |s| && !Ends(s[p]) then FieldEnd(s, p + 1) else p
  }

  /** The text before the first newline. */
  function LineOf(s: string): (r: string)
    ensures |r| <= |s| && r == s[..|r|] && '\n' !in r && (|r| < |s| ==> s[|r|] == '\n')
  {
    if s == "" || s[0] == '\n' then "" else
      var r := LineOf(s[1..]);
      assert s[..|r| + 1] == [s[0]] + s[1..][..|r|];
      [s[0]] + r
  }

  lemma LineIs(s: string)
    ensures var line := LineOf(s);
            && (forall k :: 0 <= k < |line| ==> line[k] == s[k] && s[k] != '\n')
  {
    var line := LineOf(s);
    assert forall k :: 0 <= k < |line| ==> line[k] in line && line[k] == s[k];
  }

  // ----- what the first loop leaves behind -----

  function Blanked(s: string): (r: string)
    ensures |r| == |s|
    ensures forall i :: 0 <= i < |s| ==> r[i] == if Blank(s[i]) then NUL else s[i]
  {
    seq(|s|, i requires 0 <= i < |s| => if Blank(s[i]) then NUL else s[i])
  }

  /** Where the parts between blanks begin, empty ones included. */
  function PartStarts(s: string): (r: seq<nat>)
    ensures |r| > 0 && forall i :: 0 <= i < |r| ==> r[i] <= |s|
  {
    if s == "" then [0]
    else
      var n := |s| - 1;
      PartStarts(s[..n]) + if Blank(s[n]) then [n + 1] else []
  }

  /** The C string at an offset. */
  function StringAt(buffer: seq<char>, p: nat): string
    requires p <= |buffer|
    decreases |buffer| - p
  {
    if p == |buffer| || buffer[p] == NUL then "" else [buffer[p]] + StringAt(buffer, p + 1)
  }

  /** The offsets that do not point to an empty string. */
  function NonEmpty(buffer: seq<char>, ps: seq<nat>): seq<nat>
    requires forall i :: 0 <= i < |ps| ==> ps[i] < |buffer|
  {
    if ps == [] then []
    else
      var n := |ps| - 1;
      NonEmpty(buffer, ps[..n]) + if buffer[ps[n]] == NUL then [] else [ps[n]]
  }

  lemma NonEmptyStep(buffer: seq<char>, ps: seq<nat>, p: nat)
    requires forall i :: 0 <= i < |ps| ==> ps[i] < |buffer|
    requires p < |buffer|
    ensures NonEmpty(buffer, ps + [p]) == NonEmpty(buffer, ps) + if buffer[p] == NUL then [] else [p]
  {
    assert (ps + [p])[..|ps|] == ps;
  }

  lemma NothingEmpty(buffer: seq<char>)
    ensures NonEmpty(buffer, []) == []
  {
  }

  /** Of all parts, those that are not empty are the fields. */
  lemma {:induction false} NonEmptyParts(line: string, n: nat, buffer: seq<char>)
    requires n <= |line| < |buffer|
    requires buffer[..|line|] == Blanked(line) && buffer[|line|] == NUL
    ensures NonEmpty(buffer, PartStarts(line[..n])) == FieldStarts(line, n + 1)
  {
    hide Blanked, NonEmpty;
    var s := line[..n];
    assert buffer[n] == NUL <==> n == |line| || Ends(line[n]) by {
      assert n < |line| ==> buffer[..|line|][n] == Blanked(line)[n];
    }
    if n > 0 {
      NonEmptyParts(line, n - 1, buffer);
      assert s[..n - 1] == line[..n - 1];
      var before := PartStarts(s[..n - 1]);
      assert s[n - 1] == line[n - 1];
      if Blank(s[n - 1]) {
        assert PartStarts(s) == before + [n];
        NonEmptyStep(buffer, before, n);
      } else {
        assert PartStarts(s) == before;
        assert FieldStarts(line, n) + [] == FieldStarts(line, n);
      }
    } else {
      assert s == "" && PartStarts(s) == [] + [n];
      NonEmptyStep(buffer, [], n);
      NothingEmpty(buffer);
      assert FieldStarts(line, 1) == if IsStart(line, 0) then [0] else [];
    }
  }

  lemma {:induction false} FieldString(line: string, p: nat, buffer: seq<char>)
    requires p <= |line| < |buffer|
    requires buffer[..|line|] == Blanked(line) && buffer[|line|] == NUL
    ensures StringAt(buffer, p) == line[p..FieldEnd(line, p)]
    decreases |line| - p
  {
    if p < |line| {
      assert buffer[p] == Blanked(line)[p];
      if !Ends(line[p]) {
        FieldString(line, p + 1, buffer);
      }
    }
  }

  // ----- the tokenizer -----

  /** The offsets are those of the fields of a line, and the buffer holds each as a string. */
  predicate Fields(line: string, starts: seq<nat>, buffer: seq<char>) {
    && |line| < |buffer| && starts == FieldStarts(line, |line| + 1)
    && forall t | 0 <= t < |starts| ::
         starts[t] <= |line| && StringAt(buffer, starts[t]) == line[starts[t]..FieldEnd(line, starts[t])]
  }

  /** The same with every character written out: a field begins where a character other than a
      space, tab or zero byte stands first or behind a space or tab, and it ends in front of
      the next such character or the end of the line. */
  ghost predicate WrittenOut(line: string, starts: seq<nat>, buffer: seq<char>) {
    && (forall p: nat :: p in starts <==> BegunAt(line, p))
    && (forall i, j :: 0 <= i < j < |starts| ==> starts[i] < starts[j])
    && (forall p :: p in starts ==> exists e :: HeldUpTo(line, p, e, buffer))
  }

  predicate BegunAt(line: string, p: nat) {
    && p < |line| && line[p] != ' ' && line[p] != '\t' && line[p] != '\0'
    && (p == 0 || line[p - 1] == ' ' || line[p - 1] == '\t')
  }

  predicate HeldUpTo(line: string, p: nat, e: nat, buffer: seq<char>) {
    && p < e <= |line| < |buffer| && buffer[p..e] == line[p..e] && buffer[e] == '\0'
    && ' ' !in line[p..e] && '\t' !in line[p..e] && '\0' !in line[p..e]
    && (e < |line| ==> line[e] == ' ' || line[e] == '\t' || line[e] == '\0')
  }

  lemma FieldsAre(line: string, starts: seq<nat>, buffer: seq<char>)
    requires Fields(line, starts, buffer)
    requires buffer[..|line|] == Blanked(line) && buffer[|line|] == NUL
    ensures WrittenOut(line, starts, buffer)
  {
    hide FieldStarts, StringAt, Blanked, HeldUpTo, BegunAt, IsStart, FieldEnd;
    assert |line| < |buffer| && starts == FieldStarts(line, |line| + 1);
    Increasing(line, |line| + 1, starts);
    forall p: nat
      ensures p in starts <==> BegunAt(line, p)
    {
      StartIs(line, p);
    }
    forall p | p in starts
      ensures exists e :: HeldUpTo(line, p, e, buffer)
    {
      StartIs(line, p);
      OneField(line, p, buffer);
      assert HeldUpTo(line, p, FieldEnd(line, p), buffer);
    }
  }

  lemma Increasing(line: string, n: nat, starts: seq<nat>)
    requires starts == FieldStarts(line, n)
    ensures forall p: nat :: p in starts <==> p < n && IsStart(line, p)
    ensures forall i, j :: 0 <= i < j < |starts| ==> starts[i] < starts[j]
  {
    hide FieldStarts, IsStart;
    FieldStartsAre(line, n);
  }

  lemma StartIs(line: string, p: nat)
    ensures IsStart(line, p) <==> BegunAt(line, p)
    ensures IsStart(line, p) ==> p < |line|
  {
  }

  lemma OneField(line: string, p: nat, buffer: seq<char>)
    requires IsStart(line, p) && |line| < |buffer|
    requires buffer[..|line|] == Blanked(line) && buffer[|line|] == NUL
    ensures HeldUpTo(line, p, FieldEnd(line, p), buffer)
  {
    hide Blanked;
    var e := FieldEnd(line, p);
    assert forall i :: 0 <= i < |line| ==> buffer[i] == buffer[..|line|][i];
    assert forall i :: p <= i < e ==> !Ends(line[i]) && buffer[i] == line[i];
  }

  /** Splits the text in place: argv gets the offset of each field of the first line, and the
      text holds each field as a terminated string. */
  method Parse(text: array?<char>, textlen: nat, argv: array<nat>) returns (r: int, argc: nat)
    requires text != null ==> textlen < text.Length && text[textlen] == NUL
    requires text != null ==> |PartStarts(LineOf(text[..textlen]))| < argv.Length
    modifies text, argv
    ensures text == null ==> r == -1 && argc == 0 && argv[..] == old(argv[..])
    ensures text != null ==>
      var line := LineOf(old(text[..textlen]));
      && r == 0 && argc <= argv.Length
      && Fields(line, argv[..argc], text[..])
      && WrittenOut(line, argv[..argc], text[..])
      && text[|line| + 1..] == old(text[|line| + 1..])
  {
    argc := 0;
    if text == null {
      return -1, argc;
    }
    hide LineOf, PartStarts, Terminated, Fields, LineIn, WrittenOut;
    ghost var before := text[..];
    assert before[..textlen] == text[..textlen];
    ghost var line := LineOf(before[..textlen]);
    LineFits(before, textlen);
    argc := SplitParts(text, textlen, argv, line);
    ghost var after := text[..];
    TerminatedIs(line, before, after);
    argc := DropEmpty(text, argv, argc, line);
    r := 0;
    assert text[..] == after;
    FieldsAre(line, argv[..argc], after);
  }

  /** The line is what a text of some length holds in front of its first newline. */
  ghost predicate LineIn(line: string, s: seq<char>, n: nat) {
    && |line| <= n <= |s|
    && (forall k :: 0 <= k < |line| ==> line[k] == s[k] && s[k] != '\n')
    && (|line| < n ==> s[|line|] == '\n')
  }

  lemma LineFits(s: seq<char>, n: nat)
    requires n <= |s|
    ensures LineIn(LineOf(s[..n]), s, n)
  {
    hide LineOf;
    LineIs(s[..n]);
  }

  lemma PartsAreFields(line: string, buffer: seq<char>)
    requires |line| < |buffer| && buffer[..|line|] == Blanked(line) && buffer[|line|] == NUL
    ensures NonEmpty(buffer, PartStarts(line)) == FieldStarts(line, |line| + 1)
  {
    hide Blanked, NonEmpty, PartStarts, FieldStarts;
    NonEmptyParts(line, |line|, buffer);
    assert line[..|line|] == line;
  }

  lemma TerminatedIs(line: string, before: seq<char>, after: seq<char>)
    requires Terminated(line, before, after)
    ensures |line| < |after| == |before| && after[..|line|] == Blanked(line) && after[|line|] == NUL
    ensures after[|line| + 1..] == before[|line| + 1..]
  {
  }

  lemma FieldStrings(line: string, starts: seq<nat>, buffer: seq<char>)
    requires |line| < |buffer| && starts == FieldStarts(line, |line| + 1)
    requires buffer[..|line|] == Blanked(line) && buffer[|line|] == NUL
    ensures Fields(line, starts, buffer)
  {
    hide FieldStarts, StringAt, FieldEnd, Blanked;
    FieldStartsAre(line, |line| + 1);
    forall t | 0 <= t < |starts|
      ensures starts[t] <= |line| && StringAt(buffer, starts[t]) == line[starts[t]..FieldEnd(line, starts[t])]
    {
      assert starts[t] in starts;
      FieldString(line, starts[t], buffer);
    }
  }

  lemma {:induction false} PartsSoFar(line: string, i: nat)
    requires i <= |line|
    ensures PartStarts(line[..i]) <= PartStarts(line)
    ensures i < |line| ==>
      var n := |PartStarts(line[..i])|;
      if Blank(line[i]) then |PartStarts(line[..i + 1])| == n + 1 && n < |PartStarts(line)| && PartStarts(line)[n] == i + 1
      else |PartStarts(line[..i + 1])| == n
    decreases |line| - i
  {
    if i < |line| {
      assert line[..i + 1][..i] == line[..i];
      PartsSoFar(line, i + 1);
    } else {
      assert line[..i] == line;
    }
  }

  /** The first loop: terminates every part of the line and records where each begins. */
  method SplitParts(text: array<char>, textlen: nat, argv: array<nat>, ghost line: string) returns (argc: nat)
    requires textlen < text.Length && text[textlen] == NUL
    requires LineIn(line, text[..], textlen) && |PartStarts(line)| < argv.Length
    modifies text, argv
    ensures argc <= argv.Length && argv[..argc] == PartStarts(line)
    ensures Terminated(line, old(text[..]), text[..])
  {
    hide PartStarts;
    ghost var ps := PartStarts(line);
    PartsSoFar(line, 0);
    FirstPart();
    argv[0] := 0;
    argc := 1;
    var i := 0;
    while i < textlen
      invariant i <= |line| <= textlen
      invariant argc == |PartStarts(line[..i])| <= |ps|
      invariant forall k :: 0 <= k < argc ==> argv[k] == ps[k]
      invariant forall k :: 0 <= k < i ==> text[k] == if Blank(line[k]) then NUL else line[k]
      invariant forall k :: i <= k < text.Length ==> text[k] == old(text[k])
    {
      PartsSoFar(line, i);
      if text[i] == ' ' || text[i] == '\t' {
        text[i] := NUL;
        argv[argc] := i + 1;
        argc := argc + 1;
      }
      if text[i] == '\n' {
        text[i] := NUL;
        break;
      }
      i := i + 1;
    }
    assert line[..i] == line;
  }

  /** The line's blanks and its end have become terminators; what follows is as it was. */
  ghost predicate Terminated(line: string, before: seq<char>, after: seq<char>) {
    && |line| < |before| == |after| && after[|line|] == NUL
    && (forall k :: 0 <= k < |line| ==> after[k] == if Blank(line[k]) then NUL else line[k])
    && (forall k :: |line| < k < |after| ==> after[k] == before[k])
  }

  lemma FirstPart()
    ensures PartStarts("") == [0]
  {
  }

  /** Moves what follows index i one place down. */
  method CloseGap(argv: array<nat>, i: nat, argc: nat)
    requires i < argc < argv.Length
    modifies argv
    ensures argv[..i] == old(argv[..i]) && argv[i..argc] == old(argv[i + 1..argc + 1])
  {
    var j := i;
    while j < argc
      invariant i <= j <= argc
      invariant argv[..i] == old(argv[..i]) && argv[j..] == old(argv[j..])
      invariant forall k :: i <= k < j ==> argv[k] == old(argv[k + 1])
    {
      assert argv[j + 1] == argv[j..][1] == old(argv[j..])[1];
      argv[j] := argv[j + 1];
      j := j + 1;
    }
  }

  /** The second loop: closes the gap over each offset that points to an empty string. */
  method DropEmpty(text: array<char>, argv: array<nat>, parts: nat, ghost line: string) returns (argc: nat)
    requires parts < argv.Length && argv[..parts] == PartStarts(line)
    requires |line| < text.Length && text[..|line|] == Blanked(line) && text[|line|] == NUL
    modifies argv
    ensures argc <= parts && argv[..argc] == NonEmpty(text[..], PartStarts(line))
    ensures Fields(line, argv[..argc], text[..])
  {
    hide Fields, Blanked, PartStarts;
    ghost var buffer := text[..];
    assert forall i :: 0 <= i < parts ==> argv[i] == argv[..parts][i];
    assert buffer[..|line|] == text[..|line|] && buffer[|line|] == NUL;
    PartsAreFields(line, buffer);
    argc := CloseGaps(text, argv, parts);
    assert text[..] == buffer;
    FieldStrings(line, argv[..argc], buffer);
  }

  method CloseGaps(text: array<char>, argv: array<nat>, parts: nat) returns (argc: nat)
    requires parts < argv.Length && forall i :: 0 <= i < parts ==> argv[i] < text.Length
    modifies argv
    ensures argc <= parts && argv[..argc] == NonEmpty(text[..], old(argv[..parts]))
  {
    argc := parts;
    ghost var ps := argv[..parts];
    ghost var m := 0;
    var i := 0;
    NothingEmpty(text[..]);
    while i < argc
      invariant 0 <= i <= argc <= parts && m == i + (parts - argc)
      invariant argv[i..argc] == ps[m..]
      invariant argv[..i] == NonEmpty(text[..], ps[..m])
      decreases parts - m
    {
      hide NonEmpty;
      ghost var before := argv[..];
      FirstOf(before, i, argc, ps, m);
      NonEmptyStep(text[..], ps[..m], ps[m]);
      if text[argv[i]] == NUL {
        CloseGap(argv, i, argc);
        GapClosed(before, argv[..], i, argc, ps, m);
        argc := argc - 1;
        i := i - 1;
      }
      i := i + 1;
      m := m + 1;
    }
    assert ps[..m] == ps;
  }

  lemma FirstOf(a: seq<nat>, i: nat, argc: nat, ps: seq<nat>, m: nat)
    requires i < argc <= |a| && m < |ps| && a[i..argc] == ps[m..]
    ensures a[i] == ps[m] && a[i + 1..argc] == ps[m + 1..]
    ensures ps[..m + 1] == ps[..m] + [ps[m]] && a[..i + 1] == a[..i] + [a[i]]
  {
    assert a[i..argc][0] == a[i] && a[i..argc][1..] == a[i + 1..argc];
  }

  lemma GapClosed(a: seq<nat>, b: seq<nat>, i: nat, argc: nat, ps: seq<nat>, m: nat)
    requires i < argc < |a| == |b| && m < |ps|
    requires a[i + 1..argc] == ps[m + 1..] && b[i..argc] == a[i + 1..argc + 1]
    ensures b[i..argc - 1] == ps[m + 1..]
  {
    assert b[i..argc - 1] == b[i..argc][..argc - 1 - i] && a[i + 1..argc] == a[i + 1..argc + 1][..argc - 1 - i];
  }
}
