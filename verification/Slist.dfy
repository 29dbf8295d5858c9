/** The list with unique elements that clients and abos are linked by. */
module Slist {

  // ----- what the operations do to the elements -----

  ghost predicate NoDup<T>(s: seq<T>) {
    forall i, j :: 0 <= i < j < |s| ==> s[i] != s[j]
  }

  function AddTo<T(==)>(s: seq<T>, x: T): seq<T> {
    if x in s then s else s + [x]
  }

  function IndexIn<T(==)>(s: seq<T>, x: T): (i: nat)
    ensures i <= |s| && (i < |s| <==> x in s) && x !in s[..i] && (i < |s| ==> s[i] == x)
  {
    if s == [] || s[0] == x then 0 else
      assert forall i :: 0 < i <= |s| ==> s[..i] == [s[0]] + s[1..][..i - 1];
      1 + IndexIn(s[1..], x)
  }

  /** Removal moves the last element down to the place of the removed one. */
  function RemoveFrom<T(==)>(s: seq<T>, x: T): seq<T> {
    if x in s then s[IndexIn(s, x) := s[|s| - 1]][..|s| - 1] else s
  }

  lemma AddToIs<T>(s: seq<T>, x: T)
    requires NoDup(s)
    ensures NoDup(AddTo(s, x))
    ensures forall y :: y in AddTo(s, x) <==> y in s || y == x
  {
  }

  lemma RemoveFromIs<T>(s: seq<T>, x: T)
    requires NoDup(s)
    ensures NoDup(RemoveFrom(s, x))
    ensures forall y :: y in RemoveFrom(s, x) <==> y in s && y != x
    ensures |RemoveFrom(s, x)| == if x in s then |s| - 1 else |s|
  {
    if x in s {
      var i, n := IndexIn(s, x), |s| - 1;
      var r := RemoveFrom(s, x);
      assert forall k :: 0 <= k < n ==> r[k] == if k == i then s[n] else s[k];
      forall y | y in s && y != x
        ensures y in r
      {
        var k :| 0 <= k < |s| && s[k] == y;
        assert y == r[if k == n then i else k];
      }
    }
  }

  /** Where the elements of a list with one removed come from. */
  lemma RemovedAt<T>(s: seq<T>, x: T, at: nat)
    requires at < |s| && s[at] == x && x !in s[..at]
    ensures var r := RemoveFrom(s, x);
            |r| == |s| - 1 && forall k :: 0 <= k < |r| ==> r[k] == if k == at then s[|r|] else s[k]
  {
    FirstIndex(s, x, at);
  }

  // ----- runs of operations -----

  datatype Op<T> = Add(x: T) | Remove(x: T)

  function Apply<T(==)>(ops: seq<Op<T>>): seq<T> {
    if ops == [] then []
    else
      var s := Apply(ops[..|ops| - 1]);
      match ops[|ops| - 1]
      case Add(x) => AddTo(s, x)
      case Remove(x) => RemoveFrom(s, x)
  }

  ghost predicate AddedAt<T>(ops: seq<Op<T>>, x: T, k: nat) {
    k < |ops| && ops[k] == Add(x) && forall j :: k < j < |ops| ==> ops[j].x != x
  }

  /** After any run the list holds, once each, exactly the elements whose latest operation is an add. */
  lemma {:induction false} ListIsSet<T>(ops: seq<Op<T>>, x: T)
    ensures NoDup(Apply(ops))
    ensures x in Apply(ops) <==> exists k :: AddedAt(ops, x, k)
  {
    if ops == [] {
      assert NoDup<T>([]);
      return;
    }
    var n := |ops| - 1;
    var before, last := ops[..n], ops[n];
    hide AddTo, RemoveFrom, NoDup;
    ListIsSet(before, x);
    AddToIs(Apply(before), last.x);
    RemoveFromIs(Apply(before), last.x);
    if last.x != x {
      forall k | AddedAt(before, x, k)
        ensures AddedAt(ops, x, k)
      {
      }
      forall k | AddedAt(ops, x, k)
        ensures AddedAt(before, x, k)
      {
      }
    } else if last.Add? {
      assert AddedAt(ops, x, n);
    }
  }

  // ----- the list itself -----

  class SList<T(==, 0)> {
    /** How many elements are allocated at a time. */
    const blockSize: nat
    var list: array<T>
    var nelem: nat
    var alloced: nat

    ghost predicate Valid()
      reads this, list
    {
      && blockSize > 0
      && list.Length == alloced * blockSize
      && (alloced - 1) * blockSize <= nelem <= list.Length
    }

    ghost function Contents(): seq<T>
      reads this, list
      requires Valid()
    {
      list[..nelem]
    }

    constructor (blockSize: nat)
      requires blockSize > 0
      ensures Valid() && Contents() == [] && fresh(list) && this.blockSize == blockSize
    {
      this.blockSize := blockSize;
      list := new T[0];
      nelem, alloced := 0, 0;
    }

    /** Allocates one more block if the list is full. */
    method Grow() returns (r: int)
      requires Valid()
      modifies this`list, this`alloced
      ensures Valid() && Contents() == old(Contents()) && nelem < list.Length
      ensures r == if old(nelem) < old(list).Length then -1 else 1
      ensures alloced == if r == 1 then old(alloced) + 1 else old(alloced)
      ensures list == old(list) || fresh(list)
    {
      if nelem < alloced * blockSize {
        return -1;
      }
      assert (alloced + 1) * blockSize == alloced * blockSize + blockSize;
      var bigger := new T[(alloced + 1) * blockSize];
      forall i | 0 <= i < nelem {
        bigger[i] := list[i];
      }
      list := bigger;
      alloced := alloced + 1;
      return 1;
    }

    /** Frees a block that is not needed; never the last one. */
    method Shrink() returns (r: int)
      requires blockSize > 0 && list.Length == alloced * blockSize
      requires (alloced - 2) * blockSize <= nelem <= list.Length
      modifies this`list, this`alloced
      ensures Valid() && nelem == old(nelem) && list[..nelem] == old(list[..nelem])
      ensures r == if old(nelem >= (alloced - 1) * blockSize) then -1 else 1
      ensures r == 1 ==> list.Length > 0 && alloced == old(alloced) - 1
      ensures r == -1 ==> alloced == old(alloced)
      ensures list == old(list) || fresh(list)
    {
      if nelem >= (alloced - 1) * blockSize {
        return -1;
      }
      Positive(alloced - 1, blockSize);
      assert (alloced - 1) * blockSize == (alloced - 2) * blockSize + blockSize;
      var smaller := new T[(alloced - 1) * blockSize];
      forall i | 0 <= i < nelem {
        smaller[i] := list[i];
      }
      list := smaller;
      alloced := alloced - 1;
      return 1;
    }

    method Add(obj: T) returns (r: int)
      requires Valid()
      modifies this, list
      ensures Valid() && (list == old(list) || fresh(list))
      ensures Contents() == AddTo(old(Contents()), obj)
      ensures r == if obj in old(Contents()) then 0 else 1
    {
      for i := 0 to nelem
        invariant obj !in list[..i]
      {
        if obj == list[i] {
          return 0;
        }
      }
      var _ := Grow();
      list[nelem] := obj;
      nelem := nelem + 1;
      return 1;
    }

    method Remove(obj: T) returns (r: int)
      requires Valid()
      modifies this, list
      ensures Valid() && (list == old(list) || fresh(list))
      ensures Contents() == RemoveFrom(old(Contents()), obj)
      ensures r == if obj in old(Contents()) then 1 else 0
    {
      ghost var s := Contents();
      for i := 0 to nelem
        invariant obj !in list[..i]
      {
        if obj == list[i] {
          assert i == IndexIn(s, obj) by {
            FirstIndex(s, obj, i);
          }
          nelem := nelem - 1;
          list[i] := list[nelem];
          assert list[..nelem] == RemoveFrom(s, obj);
          assert (alloced - 1) * blockSize == (alloced - 2) * blockSize + blockSize;
          var _ := Shrink();
          return 1;
        }
      }
      return 0;
    }
  }

  lemma Positive(a: int, b: nat)
    requires b > 0 && 0 < a * b
    ensures a > 0
  {
  }

  lemma {:induction false} FirstIndex<T>(s: seq<T>, x: T, i: nat)
    requires i < |s| && s[i] == x && x !in s[..i]
    ensures IndexIn(s, x) == i
  {
    if i > 0 {
      assert s[..i][0] == s[0];
      assert s[1..][..i - 1] == s[..i][1..];
      FirstIndex(s[1..], x, i - 1);
    }
  }
}
