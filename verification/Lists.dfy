/** The array list (plist.c): one allocation, shifted in place. */
module Lists {

  /** The largest size_t. */
  const SIZE_MAX: nat := 0xFFFF_FFFF_FFFF_FFFF

  /** memmove: copies `n` cells within one allocation, whichever way they overlap. */
  method Memmove<T>(a: array<T>, dst: nat, src: nat, n: nat)
    requires dst + n <= a.Length && src + n <= a.Length
    modifies a
    ensures forall k :: dst <= k < dst + n ==> a[k] == old(a[k - dst + src])
    ensures forall k :: 0 <= k < a.Length && !(dst <= k < dst + n) ==> a[k] == old(a[k])
  {
    if dst <= src {
      for k := 0 to n
        invariant forall j :: dst <= j < dst + k ==> a[j] == old(a[j - dst + src])
        invariant forall j :: 0 <= j < a.Length && !(dst <= j < dst + k) ==> a[j] == old(a[j])
      {
        a[dst + k] := a[src + k];
      }
    } else {
      for k := n downto 0
        invariant forall j :: dst + k <= j < dst + n ==> a[j] == old(a[j - dst + src])
        invariant forall j :: 0 <= j < a.Length && !(dst + k <= j < dst + n) ==> a[j] == old(a[j])
      {
        a[dst + k] := a[src + k];
      }
    }
  }

  /** realloc: a new allocation with the common part copied. */
  method Realloc<T(0)>(a: array<T>, n: nat) returns (b: array<T>)
    ensures fresh(b) && b.Length == n
    ensures forall k :: 0 <= k < n && k < a.Length ==> b[k] == a[k]
  {
    b := new T[n];
    for k := 0 to if n < a.Length then n else a.Length
      invariant forall j :: 0 <= j < k ==> b[j] == a[j]
    {
      b[k] := a[k];
    }
  }

  // ----- the mathematical sequence behind the list -----

  function Inserted<T>(s: seq<T>, at: nat, eles: seq<T>): seq<T>
    requires at <= |s|
  {
    s[..at] + eles + s[at..]
  }

  /** What is behind the gap, moved down. */
  lemma ClosedGap<T>(was: seq<T>, now: seq<T>, at: nat, n: nat, count: nat)
    requires at <= count && count + n <= |was| == |now|
    requires forall k :: 0 <= k < count ==> now[k] == was[if k < at then k else k - at + (at + n)]
    ensures now[..count] == was[..at] + was[at + n..count + n]
  {
    forall k | 0 <= k < count ensures now[..count][k] == (was[..at] + was[at + n..count + n])[k] {
      assert now[k] == was[if k < at then k else k - at + (at + n)];
    }
  }

  /** The end of the range that deleting `n` elements at `at` removes. A request for no element
      at position 0 wraps around to everything. */
  function RangeEnd(count: nat, at: nat, n: nat): nat {
    if at + n == 0 || at + n > count then count else at + n
  }

  function Removed<T>(s: seq<T>, at: nat, n: nat): seq<T> {
    if at < RangeEnd(|s|, at, n) then s[..at] + s[RangeEnd(|s|, at, n)..] else s
  }

  class PList<T(0)> {
    var list: array<T>
    var count: nat

    ghost predicate Valid()
      reads this, list
    {
      count <= list.Length && list.Length > 0
    }

    ghost function Contents(): (s: seq<T>)
      requires Valid()
      reads this, list
      ensures |s| == count
    {
      list[..count]
    }

    /** psi_plist_init: room for one element. */
    constructor ()
      ensures Valid() && fresh(list) && Contents() == [] && list.Length == 1
    {
      list := new T[1];
      count := 0;
    }

    method Add(x: T)
      requires Valid()
      modifies this, list
      ensures Valid() && if old(count) == 0 then list == old(list) else fresh(list)
      ensures Contents() == old(Contents()) + [x]
    {
      if count != 0 {
        list := Realloc(list, 1 + count);
      }
      list[count] := x;
      count := count + 1;
    }

    /** Adds a range. An empty list is not grown first: the range has to fit into it. */
    method AddR(eles: seq<T>)
      requires Valid() && (count == 0 ==> |eles| <= list.Length)
      modifies this, list
      ensures Valid() && if old(count) == 0 then list == old(list) else fresh(list)
      ensures Contents() == old(Contents()) + eles
    {
      if count != 0 {
        list := Realloc(list, 1 + |eles| + count);
      }
      for k := 0 to |eles|
        invariant count == old(count) && if old(count) == 0 then list == old(list) else fresh(list)
        invariant count + |eles| <= list.Length
        invariant list[..count] == old(Contents())
        invariant list[count..count + k] == eles[..k]
        modifies list
      {
        list[count + k] := eles[k];
      }
      count := count + |eles|;
    }

    method Get(i: nat) returns (found: bool, x: T)
      requires Valid()
      ensures found == (i < count) && (found ==> x == Contents()[i])
    {
      found := count > i;
      x := if found then list[i] else list[0];
    }

    method Del(i: nat) returns (deleted: bool, x: T)
      requires Valid()
      modifies this, list
      ensures Valid() && list == old(list)
      ensures deleted == (i < old(count)) && (deleted ==> x == old(Contents())[i])
      ensures Contents() == if deleted then Removed(old(Contents()), i, 1) else old(Contents())
    {
      x := list[0];
      deleted := count > i;
      if deleted {
        x := list[i];
        count := count - 1;
        if count > i {
          MoveDown(i, 1);
        }
      }
    }

    /** Moves the elements from `at + n` on down to `at`; `count` does not include the gap any more. */
    method MoveDown(at: nat, n: nat)
      requires at <= count && count + n <= list.Length
      modifies list
      ensures list[..count] == old(list[..at]) + old(list[at + n..count + n])
    {
      ghost var was := list[..];
      Memmove(list, at, at + n, count - at);
      forall k | 0 <= k < count ensures list[..][k] == was[if k < at then k else k - at + (at + n)] {
      }
      ClosedGap(was, list[..], at, n, count);
      assert list[..][..count] == list[..count] && was[..at] == old(list[..at]);
      assert was[at + n..count + n] == old(list[at + n..count + n]);
    }

    /** Deletes a range, clipped to the end. The source reads one element too far on an empty list. */
    method DelR(at: nat, n: nat) returns (deleted: bool, eles: seq<T>)
      requires Valid() && 0 < count <= SIZE_MAX && at + n <= SIZE_MAX
      modifies this, list
      ensures Valid() && list == old(list)
      ensures var end := RangeEnd(old(count), at, n);
              && deleted == (at < end)
              && eles == (if deleted then old(Contents())[at..end] else [])
      ensures Contents() == Removed(old(Contents()), at, n)
    {
      var last := if at + n == 0 then SIZE_MAX else at + n - 1;
      if count <= last {
        last := count - 1;
      }
      deleted, eles := last >= at, [];
      if deleted {
        var num := 1 + last - at;
        assert at + num == RangeEnd(count, at, n);
        eles := list[at..at + num];
        assert eles == Contents()[at..at + num];
        count := count - num;
        if count != 0 {
          MoveDown(at, num);
        }
      }
    }

    method Ins(i: nat, x: T)
      requires Valid() && i <= count
      modifies this, list
      ensures Valid() && fresh(list)
      ensures Contents() == Inserted(old(Contents()), i, [x])
    {
      var newCount := if count + 1 > i then count + 1 else i;
      list := Realloc(list, 1 + newCount);
      Memmove(list, i + 1, i, count - i);
      list[i] := x;
      count := newCount;
    }

    method InsR(at: nat, eles: seq<T>)
      requires Valid() && at <= count
      modifies this, list
      ensures Valid() && fresh(list)
      ensures Contents() == Inserted(old(Contents()), at, eles)
    {
      var n := |eles|;
      var newCount := count + n;
      list := Realloc(list, 1 + newCount);
      Memmove(list, at + n, at, count - at);
      assert forall k :: at + n <= k < newCount ==> list[k] == old(Contents())[k - n];
      for e := 0 to n
        invariant fresh(list) && list.Length == 1 + newCount && count == old(count)
        invariant forall k :: 0 <= k < at ==> list[k] == old(Contents())[k]
        invariant forall k :: at <= k < at + e ==> list[k] == eles[k - at]
        invariant forall k :: at + n <= k < newCount ==> list[k] == old(Contents())[k - n]
        modifies list
      {
        list[at + e] := eles[e];
      }
      count := newCount;
    }

    method Shift() returns (shifted: bool, x: T)
      requires Valid()
      modifies this, list
      ensures Valid() && list == old(list)
      ensures shifted == (old(count) > 0) && (shifted ==> x == old(Contents())[0])
      ensures Contents() == if shifted then old(Contents())[1..] else []
    {
      shifted, x := count > 0, list[0];
      if shifted {
        count := count - 1;
        if count > 0 {
          Memmove(list, 0, 1, count);
        }
      }
    }

    method Pop() returns (popped: bool, x: T)
      requires Valid()
      modifies this, list
      ensures Valid() && list == old(list)
      ensures popped == (old(count) > 0) && (popped ==> x == old(Contents())[old(count) - 1])
      ensures Contents() == if popped then old(Contents())[..old(count) - 1] else []
    {
      popped, x := count > 0, list[0];
      if popped {
        count := count - 1;
        x := list[count];
      }
    }
  }

  // ----- runs of edits -----

  /** How many elements deleting `n` elements at `at` removes, and which ones stay. */
  lemma RemovedExactly<T>(s: seq<T>, at: nat, n: nat)
    ensures var gone := if at == 0 == n then |s| else if at + n <= |s| then n else if at < |s| then |s| - at else 0;
            && |Removed(s, at, n)| == |s| - gone
            && (forall k :: 0 <= k < |s| - gone ==> Removed(s, at, n)[k] == s[if k < at then k else k + gone])
  {
  }

  /** An edit made with what it removed, so that it can be taken back. */
  datatype Edit<T> = Insert(at: nat, eles: seq<T>) | Delete(at: nat, n: nat)

  predicate InRange<T>(s: seq<T>, e: Edit<T>) {
    match e
    case Insert(at, _) => at <= |s|
    case Delete(at, n) => n > 0 && at + n <= |s|
  }

  function Apply<T>(s: seq<T>, e: Edit<T>): seq<T>
    requires InRange(s, e)
  {
    match e
    case Insert(at, eles) => Inserted(s, at, eles)
    case Delete(at, n) => Removed(s, at, n)
  }

  /** The edit that takes back `e`; nothing has to be done for an empty insertion. */
  function Inverse<T>(s: seq<T>, e: Edit<T>): Edit<T>
    requires InRange(s, e)
  {
    match e
    case Insert(at, eles) => if eles == [] then Insert(at, []) else Delete(at, |eles|)
    case Delete(at, n) => Insert(at, s[at..at + n])
  }

  lemma UndoOne<T>(s: seq<T>, e: Edit<T>)
    requires InRange(s, e)
    ensures InRange(Apply(s, e), Inverse(s, e)) && Apply(Apply(s, e), Inverse(s, e)) == s
  {
    match e
    case Insert(at, eles) =>
      if eles != [] {
        assert Removed(Inserted(s, at, eles), at, |eles|) == s[..at] + s[at..];
      }
    case Delete(at, n) =>
      var s' := s[..at] + s[at + n..];
      assert s'[..at] == s[..at] && s'[at..] == s[at + n..];
      assert s[..at] + s[at..at + n] + s[at + n..] == s;
  }

  ghost predicate AllInRange<T>(s: seq<T>, es: seq<Edit<T>>)
    decreases |es|
  {
    es == [] || (InRange(s, es[0]) && AllInRange(Apply(s, es[0]), es[1..]))
  }

  ghost function ApplyAll<T>(s: seq<T>, es: seq<Edit<T>>): seq<T>
    requires AllInRange(s, es)
    decreases |es|
  {
    if es == [] then s else ApplyAll(Apply(s, es[0]), es[1..])
  }

  ghost function UndoAll<T>(s: seq<T>, es: seq<Edit<T>>): seq<Edit<T>>
    requires AllInRange(s, es)
    decreases |es|
  {
    if es == [] then [] else UndoAll(Apply(s, es[0]), es[1..]) + [Inverse(s, es[0])]
  }

  lemma {:induction false} ApplyAllSnoc<T>(s: seq<T>, es: seq<Edit<T>>, e: Edit<T>)
    requires AllInRange(s, es) && InRange(ApplyAll(s, es), e)
    ensures AllInRange(s, es + [e]) && ApplyAll(s, es + [e]) == Apply(ApplyAll(s, es), e)
    decreases |es|
  {
    if es == [] {
      assert (es + [e])[1..] == [];
    } else {
      ApplyAllSnoc(Apply(s, es[0]), es[1..], e);
      assert (es + [e])[1..] == es[1..] + [e];
    }
  }

  /** Any run of range insertions and deletions is taken back by the inverse edits in reverse order. */
  lemma {:induction false} RunIsUndone<T>(s: seq<T>, es: seq<Edit<T>>)
    requires AllInRange(s, es)
    ensures AllInRange(ApplyAll(s, es), UndoAll(s, es))
    ensures ApplyAll(ApplyAll(s, es), UndoAll(s, es)) == s
    decreases |es|
  {
    if es != [] {
      RunIsUndone(Apply(s, es[0]), es[1..]);
      UndoOne(s, es[0]);
      ApplyAllSnoc(ApplyAll(s, es), UndoAll(Apply(s, es[0]), es[1..]), Inverse(s, es[0]));
    }
  }
}
