/** The stacks of the generalised LR parser: many stacks in one array, one stack in a packed array. */
module GlrStack {
  import opened GlrChains

  // ----- the stacks as lists -----

  ghost function Traces<V>(items: seq<Item<V>>, tops: seq<int>): (ss: seq<seq<Entry<V>>>)
    ensures |ss| == |tops| && forall k :: 0 <= k < |tops| ==> ss[k] == Trace(items, tops[k])
  {
    seq(|tops|, k requires 0 <= k < |tops| => Trace(items, tops[k]))
  }

  /** Before the split point the items form a packed stack; every stack goes through it. Without a
      split point there is only that packed stack. */
  ghost predicate Sound<V>(items: seq<Item<V>>, tops: seq<int>, split: int, last: int) {
    && Linked(items)
    && if split == NULL
       then Packed(items, |items|) && |tops| == 1 && tops[0] == |items| - 1 && last == NULL
       else
         && 0 <= split < |items| && Packed(items, split + 1)
         && (forall k :: 0 <= k < |tops| ==> tops[k] == NULL || Reaches(items, tops[k], split))
         && (last == NULL || Reaches(items, last, split))
  }

  lemma TopsBounded<V>(items: seq<Item<V>>, tops: seq<int>, split: int, last: int)
    requires Sound(items, tops, split, last)
    ensures forall k :: 0 <= k < |tops| ==>
      NULL <= tops[k] < |items| && (Trace(items, tops[k]) == [] <==> tops[k] == NULL)
    ensures NULL <= last < |items|
  {
    if split == NULL {
      OnlyTopBounded(items);
    } else {
      TopsReach(items, tops, split);
      NoTrace(items);
    }
    hide Linked, Packed, Reaches, Trace;
  }

  lemma OnlyTopBounded<V>(items: seq<Item<V>>)
    requires Packed(items, |items|)
    ensures Trace(items, |items| - 1) == [] <==> |items| - 1 == NULL
  {
    NoTrace(items);
  }

  lemma TopsReach<V>(items: seq<Item<V>>, tops: seq<int>, split: int)
    requires Linked(items) && forall k :: 0 <= k < |tops| ==> tops[k] == NULL || Reaches(items, tops[k], split)
    ensures forall k :: 0 <= k < |tops| && tops[k] != NULL ==> 0 <= tops[k] < |items| && Trace(items, tops[k]) != []
  {
    forall k | 0 <= k < |tops| && tops[k] != NULL ensures 0 <= tops[k] < |items| && Trace(items, tops[k]) != [] {
      ReachingTop(items, tops[k], split);
    }
  }

  lemma ReachingTop<V>(items: seq<Item<V>>, t: int, s: int)
    requires Linked(items) && Reaches(items, t, s)
    ensures 0 <= t < |items| && Trace(items, t) != []
  {
  }

  /** Items added at the end leave all stacks alone. */
  lemma Grown<V>(items: seq<Item<V>>, more: seq<Item<V>>, t: int, s: int)
    requires t < |items|
    ensures Trace(items + more, t) == Trace(items, t)
    ensures Reaches(items, t, s) <==> Reaches(items + more, t, s)
  {
    TraceSame(items, items + more, t);
    ReachesSame(items, items + more, t, s);
  }

  lemma LinkedGrows<V>(items: seq<Item<V>>, t: int, entry: Entry<V>)
    requires Linked(items) && NULL <= t < |items| && (t != NULL ==> items[t].State?)
    ensures Linked(items + [State(entry, t)])
  {
  }

  lemma ShiftSound<V>(items: seq<Item<V>>, tops: seq<int>, split: int, last: int, k: nat, entry: Entry<V>)
    requires Sound(items, tops, split, last) && k < |tops|
    requires split == NULL || tops[k] != NULL
    ensures Sound(items + [State(entry, tops[k])], tops[k := |items|], split, last)
  {
    hide Trace;
    TopsBounded(items, tops, split, last);
    var more := [State(entry, tops[k])];
    LinkedGrows(items, tops[k], entry);
    hide Linked;
    if split != NULL {
      forall j | 0 <= j < |tops| && tops[j] != NULL ensures Reaches(items + more, tops[j], split) {
        Grown(items, more, tops[j], split);
      }
      Grown(items, more, last, split);
      assert Packed(items + more, split + 1);
    }
  }

  lemma ShiftTraces<V>(items: seq<Item<V>>, tops: seq<int>, k: nat, entry: Entry<V>)
    requires k < |tops| && forall j :: 0 <= j < |tops| ==> tops[j] < |items|
    ensures Traces(items + [State(entry, tops[k])], tops[k := |items|]) ==
            Traces(items, tops)[k := Trace(items, tops[k]) + [entry]]
  {
    var more := [State(entry, tops[k])];
    assert Trace(items + more, |items|) == Trace(items + more, tops[k]) + [entry];
    hide Trace;
    forall j | 0 <= j < |tops| ensures Trace(items + more, tops[j]) == Trace(items, tops[j]) {
      Grown(items, more, tops[j], 0);
    }
  }

  /** Stacks cut back to a state below: the split point follows it down. */
  lemma CutSound<V>(items: seq<Item<V>>, tops: seq<int>, split: int, last: int, k: nat, r: int)
    requires Sound(items, tops, split, last) && k < |tops| && split != NULL && tops[k] != NULL
    requires Reaches(items, tops[k], r)
    ensures 0 <= r && Sound(items, tops[k := r], if r < split then r else split, last)
  {
    if r < split {
      PackedTrace(items, split + 1, split);
      forall t | t != NULL && Reaches(items, t, split) ensures Reaches(items, t, r) {
        ReachesDown(items, t, split, r);
      }
    } else {
      ReachesBoth(items, tops[k], r, split);
    }
  }

  lemma PopSound<V>(items: seq<Item<V>>, n: nat)
    requires Linked(items) && Packed(items, |items|) && n <= |items|
    ensures Sound(items[..n], [n - 1], NULL, NULL)
  {
    hide Reaches;
    var cut := items[..n];
    forall i | 0 <= i < n && cut[i].State?
      ensures NULL <= cut[i].pred < i && (cut[i].pred != NULL ==> cut[cut[i].pred].State?)
    {
      assert cut[i] == items[i];
    }
  }

  lemma PopTrace<V>(items: seq<Item<V>>, n: nat)
    requires Packed(items, |items|) && n <= |items|
    ensures |Trace(items, |items| - 1)| == |items| && Trace(items[..n], n - 1) == Trace(items, |items| - 1)[..n]
    ensures forall i :: 0 <= i < |items| ==> Trace(items, |items| - 1)[i] == items[i].entry
  {
    NoTrace(items);
    hide Trace, Reaches;
    PackedTrace(items, |items|, |items| - 1);
    TraceSame(items, items[..n], n - 1);
  }

  lemma OnlyPacked<V>(items: seq<Item<V>>, tops: seq<int>, last: int)
    requires Sound(items, tops, NULL, last)
    ensures last == NULL && tops == [|items| - 1] && Linked(items) && Packed(items, |items|)
  {
    hide Linked, Packed;
  }

  lemma PackedTop<V>(items: seq<Item<V>>)
    requires Packed(items, |items|) && items != []
    ensures var t := |items| - 1; items[t].State? && items[t].pred == t - 1
  {
  }

  /** Cutting the only stack back to its lowest `n` states. */
  lemma PopStacks<V>(items: seq<Item<V>>, tops: seq<int>, last: int, n: nat)
    requires Sound(items, tops, NULL, last) && n <= |items|
    ensures Sound(items[..n], [n - 1], NULL, NULL)
    ensures var st := Trace(items, |items| - 1);
            |st| == |items| && Traces(items, tops) == [st] && Traces(items[..n], [n - 1]) == [st[..n]]
  {
    OnlyPacked(items, tops, last);
    hide Trace, Reaches, Linked, Sound, Packed;
    PopSound(items, n);
    PopTrace(items, n);
  }

  lemma NoTrace<V>(items: seq<Item<V>>)
    ensures Trace(items, NULL) == []
  {
  }

  /** One state down a stack that has a state further down. */
  lemma StepDown<V>(items: seq<Item<V>>, t: int, s: int)
    requires Linked(items) && Reaches(items, t, s) && |Trace(items, s)| > 1
    ensures items[s].State? && Reaches(items, t, items[s].pred)
    ensures Trace(items, s) == Trace(items, items[s].pred) + [items[s].entry]
  {
    var r := items[s].pred;
    NoTrace(items);
    assert Trace(items, s) == Trace(items, r) + [items[s].entry];
    assert r != NULL;
    assert Reaches(items, r, r) && Reaches(items, s, r);
    ReachesDown(items, t, s, r);
  }

  // ----- removing dead stacks -----

  /** The stacks that are not empty, and what goes with them. */
  function Nonempty<T>(ss: seq<seq<T>>, what: seq<bool>): (r: (seq<seq<T>>, seq<bool>))
    requires |ss| == |what|
    ensures |r.0| == |r.1| <= |ss|
  {
    if ss == [] then ([], [])
    else
      var n := |ss| - 1;
      var (rs, rw) := Nonempty(ss[..n], what[..n]);
      if ss[n] == [] then (rs, rw) else (rs + [ss[n]], rw + [what[n]])
  }

  /** `rs` and `rw` are the entries of `ss` and `what` at the places `at`, which are those of stacks that are not
      empty, in order. */
  ghost predicate Picks<T>(ss: seq<seq<T>>, what: seq<bool>, at: seq<nat>, rs: seq<seq<T>>, rw: seq<bool>)
    requires |ss| == |what|
  {
    && |at| == |rs| == |rw|
    && (forall k :: 0 <= k < |at| ==> at[k] < |ss| && rs[k] == ss[at[k]] && rw[k] == what[at[k]])
    && (forall j, k :: 0 <= j < k < |at| ==> at[j] < at[k])
    && (forall i :: 0 <= i < |ss| ==> (i in at <==> ss[i] != []))
  }

  lemma {:induction false} NonemptyExactly<T>(ss: seq<seq<T>>, what: seq<bool>) returns (at: seq<nat>)
    requires |ss| == |what|
    ensures Picks(ss, what, at, Nonempty(ss, what).0, Nonempty(ss, what).1)
  {
    hide Picks;
    at := [];
    if ss == [] {
      PicksNone<T>();
    } else {
      var n := |ss| - 1;
      var (rs, rw) := Nonempty(ss[..n], what[..n]);
      at := NonemptyExactly(ss[..n], what[..n]);
      assert ss == ss[..n] + [ss[n]] && what == what[..n] + [what[n]];
      PicksNext(ss[..n], what[..n], at, rs, rw, ss[n], what[n]);
      at := if ss[n] == [] then at else at + [n];
    }
  }

  lemma PicksNone<T>()
    ensures Picks<T>([], [], [], [], [])
  {
  }

  lemma PicksNext<T>(ss: seq<seq<T>>, what: seq<bool>, at: seq<nat>, rs: seq<seq<T>>, rw: seq<bool>, s: seq<T>,
                     w: bool)
    requires |ss| == |what| && Picks(ss, what, at, rs, rw)
    ensures if s == [] then Picks(ss + [s], what + [w], at, rs, rw)
            else Picks(ss + [s], what + [w], at + [|ss|], rs + [s], rw + [w])
  {
  }

  function NonNull(tops: seq<int>, what: seq<bool>): (r: (seq<int>, seq<bool>))
    requires |tops| == |what|
    ensures |r.0| == |r.1| <= |tops|
  {
    if tops == [] then ([], [])
    else
      var n := |tops| - 1;
      var (rs, rw) := NonNull(tops[..n], what[..n]);
      if tops[n] == NULL then (rs, rw) else (rs + [tops[n]], rw + [what[n]])
  }

  lemma {:induction false} NonNullTraces<V>(items: seq<Item<V>>, tops: seq<int>, what: seq<bool>)
    requires |tops| == |what| && forall k :: 0 <= k < |tops| ==> (Trace(items, tops[k]) == [] <==> tops[k] == NULL)
    ensures var (ts, w) := NonNull(tops, what);
            (Traces(items, ts), w) == Nonempty(Traces(items, tops), what)
    ensures forall t :: t in NonNull(tops, what).0 ==> t in tops && t != NULL
  {
    if tops != [] {
      var n := |tops| - 1;
      NonNullTraces(items, tops[..n], what[..n]);
      assert Traces(items, tops)[..n] == Traces(items, tops[..n]);
      var ts := NonNull(tops[..n], what[..n]).0;
      assert Traces(items, ts + [tops[n]]) == Traces(items, ts) + [Trace(items, tops[n])];
    }
  }

  class Glr<V> {
    var items: array<Item<V>>
    var nextFree: nat
    var spaceLeft: nat
    var split: int
    var last: int
    var tops: array<int>
    var needs: array<bool>
    var size: nat

    ghost predicate Shape()
      reads this
    {
      nextFree <= items.Length && nextFree + spaceLeft == items.Length && size <= tops.Length == needs.Length
          && tops.Length > 0
    }

    ghost predicate Valid()
      reads this, items, tops
    {
      Shape() && Sound(items[..nextFree], tops[..size], split, last)
    }

    /** The stacks, each bottom first. */
    ghost function Stacks(): (ss: seq<seq<Entry<V>>>)
      requires Shape()
      reads this, items, tops
      ensures |ss| == size
    {
      Traces(items[..nextFree], tops[..size])
    }

    /** The stack that died last, as it was then. */
    ghost function LastStack(): seq<Entry<V>>
      requires Shape()
      reads this, items
    {
      Trace(items[..nextFree], last)
    }

    constructor (n: nat)
      ensures Valid() && fresh(items) && fresh(tops) && fresh(needs)
      ensures Stacks() == [[]] && split == NULL && spaceLeft == n
    {
      items := new Item<V>[n](_ => Option(0, NULL, NULL));
      nextFree, spaceLeft, split, last, size := 0, n, NULL, NULL, 1;
      tops := new int[16](_ => NULL);
      needs := new bool[16](_ => false);
      new;
      assert items[..nextFree] == [] && tops[..size] == [NULL];
    }

    /** Takes the next item; whoever asked for it fills it. */
    method NewItem(isState: bool) returns (i: nat)
      requires Shape() && spaceLeft > 0
      modifies this`nextFree, this`spaceLeft, items
      ensures Shape() && i == old(nextFree) && nextFree == i + 1 && spaceLeft == old(spaceLeft) - 1
      ensures items[i].State? == isState
      ensures items[..i] == old(items[..nextFree])
    {
      i := nextFree;
      spaceLeft := spaceLeft - 1;
      nextFree := nextFree + 1;
      items[i] := if isState then State(Entry(0, 0, Unresolved(NULL)), NULL) else Option(0, NULL, NULL);
    }

    method Shift(k: nat, lr: nat, posn: nat, val: V)
      requires Valid() && spaceLeft > 0 && k < size && (split == NULL || tops[k] != NULL)
      modifies this`nextFree, this`spaceLeft, items, tops
      ensures Valid() && Stacks() == old(Stacks()[k := Stacks()[k] + [Entry(lr, posn, Resolved(val))]])
      ensures tops[k] != NULL && LastStack() == old(LastStack())
    {
      ghost var was, ts := items[..nextFree], tops[..size];
      hide Sound, Trace, Reaches;
      var i := NewItem(true);
      var entry := Entry(lr, posn, Resolved(val));
      items[i] := State(entry, tops[k]);
      assert items[..nextFree] == was + [State(entry, ts[k])];
      tops[k] := i;
      assert tops[..size] == ts[k := |was|];
      TopsBounded(was, ts, split, last);
      ShiftSound(was, ts, split, last, k, entry);
      ShiftTraces(was, ts, k, entry);
      Grown(was, [State(entry, ts[k])], last, 0);
    }

    /** The entries of the `n` items up to `top`. */
    method Read(top: int, n: nat) returns (rhs: seq<Entry<V>>)
      requires 0 <= top - n + 1 && top < items.Length && forall i :: top - n < i <= top ==> items[i].State?
      ensures |rhs| == n && forall i :: 0 <= i < n ==> rhs[i] == items[top - n + 1 + i].entry
    {
      rhs := [];
      for i := 0 to n
        invariant |rhs| == i && forall j :: 0 <= j < i ==> rhs[j] == items[top - n + 1 + j].entry
      {
        rhs := rhs + [items[top - n + 1 + i].entry];
      }
    }

    /** The right hand side of a reduction of the only stack, popped by moving the end of the array. */
    method PopPacked(n: nat) returns (rhs: seq<Entry<V>>)
      requires Valid() && split == NULL && n < nextFree
      modifies this`nextFree, this`spaceLeft, tops
      ensures Valid() && tops[0] != NULL && LastStack() == old(LastStack()) == []
      ensures var st := old(Stacks()[0]); |st| == old(nextFree) && Stacks() == [st[..|st| - n]] && rhs == st[|st| - n..]
    {
      hide Trace, Traces, Reaches, Linked, Sound, Packed;
      ghost var was := items[..nextFree];
      OnlyPacked(was, tops[..size], last);
      PopStacks(was, tops[..size], last, |was| - n);
      NoTrace(was);
      NoTrace(was[..|was| - n]);
      assert tops[0] == tops[..size][0];
      rhs := ReadTop(n);
      Truncate(n);
    }

    method ReadTop(n: nat) returns (rhs: seq<Entry<V>>)
      requires Shape() && Packed(items[..nextFree], nextFree) && size > 0 && tops[0] == nextFree - 1 && n <= nextFree
      ensures var st := Trace(items[..nextFree], nextFree - 1); |st| == nextFree && rhs == st[nextFree - n..]
    {
      hide Trace, Reaches;
      assert forall i :: 0 <= i < nextFree ==> items[i] == items[..nextFree][i];
      PopTrace(items[..nextFree], nextFree);
      rhs := Read(tops[0], n);
    }

    /** Moves the end of the array `n` items down, and the top of the only stack with it. */
    method Truncate(n: nat)
      requires Shape() && size == 1 && n <= nextFree
      modifies this`nextFree, this`spaceLeft, tops
      ensures Shape() && nextFree == old(nextFree) - n && tops[..size] == [nextFree - 1]
      ensures items[..nextFree] == old(items[..nextFree])[..nextFree]
    {
      nextFree := nextFree - n;
      spaceLeft := spaceLeft + n;
      tops[0] := nextFree - 1;
    }

    /** Follows `n` predecessors from `t`. */
    method Walk(t: int, n: nat) returns (s: int, rhs: seq<Entry<V>>)
      requires nextFree <= items.Length && Linked(items[..nextFree]) && Reaches(items[..nextFree], t, t)
      requires n < |Trace(items[..nextFree], t)|
      ensures Reaches(items[..nextFree], t, s) && |rhs| == n
      ensures Trace(items[..nextFree], t) == Trace(items[..nextFree], s) + rhs
    {
      hide Linked, Trace;
      s, rhs := t, [];
      ghost var was := items[..nextFree];
      for i := 0 to n
        invariant Reaches(was, t, s) && |rhs| == i && Trace(was, t) == Trace(was, s) + rhs
      {
        StepDown(was, t, s);
        rhs := [items[s].entry] + rhs;
        s := items[s].pred;
      }
    }

    /** The same for one of several stacks, by following the predecessors. */
    method PopLinked(k: nat, n: nat) returns (rhs: seq<Entry<V>>)
      requires Valid() && split != NULL && k < size && n < |Stacks()[k]|
      modifies this`split, tops
      ensures Valid() && tops[k] != NULL && split == if old(split) > tops[k] then tops[k] else old(split)
      ensures LastStack() == old(LastStack())
      ensures var st := old(Stacks()[k]); Stacks() == old(Stacks())[k := st[..|st| - n]] && rhs == st[|st| - n..]
    {
      hide Sound, Trace, Reaches, Linked;
      ghost var was, ts := items[..nextFree], tops[..size];
      TopsBounded(was, ts, split, last);
      SoundLinked(was, ts, split, last);
      var s;
      s, rhs := Walk(tops[k], n);
      CutSound(was, ts, split, last, k, s);
      UpdateSplit(s);
      tops[k] := s;
      assert tops[..size] == ts[k := s];
    }

    method UpdateSplit(s: int)
      modifies this`split
      ensures split == if old(split) != NULL && old(split) > s then s else old(split)
    {
      if split != NULL && split > s {
        split := s;
      }
    }

    /** Pops the right hand side of a rule off one stack. */
    method DoAction(k: nat, n: nat) returns (rhs: seq<Entry<V>>)
      requires Valid() && k < size && n < |Stacks()[k]|
      modifies this`nextFree, this`spaceLeft, this`split, tops
      ensures Valid() && tops[k] != NULL && LastStack() == old(LastStack())
      ensures split == if old(split) != NULL && old(split) > tops[k] then tops[k] else old(split)
      ensures var st := old(Stacks()[k]); Stacks() == old(Stacks())[k := st[..|st| - n]] && rhs == st[|st| - n..]
    {
      hide Trace, Reaches;
      if split == NULL {
        assert |items[..nextFree]| == nextFree;
        PopTrace(items[..nextFree], nextFree);
        rhs := PopPacked(n);
      } else {
        rhs := PopLinked(k, n);
      }
    }

    /** Pops one state of the only stack, to recover from a syntax error. */
    method PopOne()
      requires Valid() && split == NULL && nextFree > 0
      modifies this`nextFree, this`spaceLeft, tops
      ensures Valid() && var st := old(Stacks()[0]); |st| > 0 && Stacks() == [st[..|st| - 1]]
      ensures LastStack() == old(LastStack()) == []
    {
      hide Trace, Traces, Reaches, Linked, Sound, Packed;
      ghost var was := items[..nextFree];
      OnlyPacked(was, tops[..size], last);
      PopStacks(was, tops[..size], last, |was| - 1);
      NoTrace(was);
      NoTrace(was[..|was| - 1]);
      PackedTop(was);
      assert items[nextFree - 1] == was[|was| - 1] && tops[0] == tops[..size][0];
      tops[0] := items[tops[0]].pred;
      nextFree := nextFree - 1;
      spaceLeft := spaceLeft + 1;
      assert items[..nextFree] == was[..|was| - 1];
      assert tops[..size] == [nextFree - 1];
    }

    /** Makes a stack two. */
    method Split(k: nat) returns (j: nat)
      requires Valid() && k < size && tops[k] != NULL
      modifies this, tops, needs
      ensures Valid() && split != NULL && j == old(size) && size == j + 1
      ensures split == if old(split) == NULL then old(tops[k]) else old(split)
      ensures Stacks() == old(Stacks()) + [old(Stacks()[k])]
      ensures needs[..size] == old(needs[..size]) + [old(needs[k])]
      ensures items == old(items) && nextFree == old(nextFree) && spaceLeft == old(spaceLeft) && last == old(last)
      ensures LastStack() == old(LastStack())
      ensures (tops == old(tops) || fresh(tops)) && (needs == old(needs) || fresh(needs))
    {
      ghost var was, ts := items[..nextFree], tops[..size];
      TopsBounded(was, ts, split, last);
      SplitSound(was, ts, split, last, k);
      hide Sound, Trace, Reaches;
      if split == NULL {
        split := tops[k];
      }
      Append(k);
      j := size - 1;
    }

    method Append(k: nat)
      requires Shape() && k < size
      modifies this`tops, this`needs, this`size, tops, needs
      ensures Shape() && size == old(size) + 1
      ensures (tops == old(tops) || fresh(tops)) && (needs == old(needs) || fresh(needs))
      ensures tops[..size] == old(tops[..size] + [tops[k]]) && needs[..size] == old(needs[..size] + [needs[k]])
    {
      ghost var ts, ns := tops[..size], needs[..size];
      Reserve();
      assert tops[k] == ts[k] && needs[k] == ns[k];
      tops[size] := tops[k];
      needs[size] := needs[k];
      size := size + 1;
    }

    /** Makes room for one more stack. */
    method Reserve()
      requires Shape()
      modifies this`tops, this`needs
      ensures Shape() && size < tops.Length
      ensures (tops == old(tops) || fresh(tops)) && (needs == old(needs) || fresh(needs))
      ensures tops[..size] == old(tops[..size]) && needs[..size] == old(needs[..size])
    {
      if size < tops.Length {
        return;
      }
      var n := 2 * tops.Length;
      var from, flags := tops, needs;
      tops := new int[n](i reads from => if 0 <= i < from.Length then from[i] else NULL);
      needs := new bool[n](i reads flags => if 0 <= i < flags.Length then flags[i] else false);
    }

    /** Marks a stack as dead. */
    method MarkDeleted(k: nat)
      requires Valid() && split != NULL && k < size
      modifies this`last, tops
      ensures Valid() && tops[k] == NULL && Stacks() == old(Stacks())[k := []]
      ensures last == if old(tops[k]) == NULL then old(last) else old(tops[k])
      ensures LastStack() == if old(tops[k]) == NULL then old(LastStack()) else old(Stacks()[k])
    {
      hide Trace, Reaches, Linked, Packed;
      ghost var was, ts := items[..nextFree], tops[..size];
      NoTrace(was);
      assert tops[k] == ts[k];
      if tops[k] != NULL {
        last := tops[k];
      }
      tops[k] := NULL;
      assert tops[..size] == ts[k := NULL];
    }

    /** Brings the stack back that died last. */
    method UndeleteLast()
      requires Valid()
      modifies this`last, this`size, tops
      ensures Valid() && if old(size) == 0 && old(last) != NULL then Stacks() == [old(LastStack())]
                         else Stacks() == old(Stacks())
    {
      if last == NULL || size != 0 {
        return;
      }
      tops[0] := last;
      size := 1;
      last := NULL;
      assert tops[..size] == [old(last)];
    }

    /** Drops the dead stacks. */
    method RemoveDeletes()
      requires Valid() && (split == NULL ==> tops[0] != NULL)
      modifies this`size, tops, needs
      ensures Valid() && (Stacks(), needs[..size]) == Nonempty(old(Stacks()), old(needs[..size]))
      ensures LastStack() == old(LastStack())
      ensures NULL !in tops[..size]
    {
      ghost var was, ts, ns := items[..nextFree], tops[..size], needs[..size];
      DeletesSound(was, ts, ns, split, last);
      hide Trace, Reaches, Sound;
      MoveUp();
    }

    method SetPred(p: int, r: int)
      requires 0 <= p < nextFree <= items.Length && items[p].State?
      modifies items
      ensures items[..nextFree] == old(items[..nextFree])[p := old(items[p]).(pred := r)]
      ensures forall i :: nextFree <= i < items.Length ==> items[i] == old(items[i])
    {
      items[p] := items[p].(pred := r);
    }

    /** Reverses the predecessor links of the only stack above the split point, and returns the lowest of these
        states. */
    method ReverseLinks(ghost c: seq<int>) returns (r: int)
      requires Shape() && size == 1 && 0 <= split && Linked(items[..nextFree])
      requires Reaches(items[..nextFree], tops[0], split) && c == Above(items[..nextFree], tops[0], split)
      modifies items
      ensures var was := old(items[..nextFree]); MovedDown(was, items[..nextFree], split, c, 0) && Path(was, split, c)
      ensures r == UpFrom(c, 0) && tops[0] == Below(split, c, |c|) && split < nextFree
    {
      hide Linked, Reaches, Above, Upward, Turning, Path, MovedDown, UpFrom, Below;
      ghost var was, k := items[..nextFree], |c|;
      TurningBegins(was, tops[0], split, c);
      AboveBelow(was, tops[0], split);
      var p := tops[0];
      var q := items[p].pred;
      r := NULL;
      while p != split
        invariant Turning(was, items[..nextFree], split, c, k, p, q, r)
        decreases k
      {
        TurningGoesOn(was, items[..nextFree], split, c, k, p, q, r);
        SetPred(p, r);
        k := k - 1;
        r := p;
        p := q;
        q := items[p].pred;
      }
      TurningEnds(was, items[..nextFree], split, c, k, p, q, r);
    }

    /** Copies the state `r` to the next free item, on top of the packed stack; `up` is the state above `r`. */
    method CopyOne(r: int, ghost now: seq<Item<V>>) returns (up: int)
      requires Shape() && size == 1 && nextFree <= r < |now| <= items.Length && now == items[..|now|] && now[r].State?
      modifies this`nextFree, this`spaceLeft, items, tops
      ensures Shape() && nextFree == old(nextFree) + 1 && up == now[r].pred
      ensures items[..|now|] == Copied(now, r, old(nextFree))
      ensures tops[0] == nextFree - 1
    {
      items[nextFree] := items[r];
      up := items[r].pred;
      items[nextFree] := items[nextFree].(pred := nextFree - 1);
      tops[0] := nextFree;
      nextFree := nextFree + 1;
      spaceLeft := spaceLeft - 1;
    }

    /** Copies the states down to where they follow the split point, from `r` upwards. */
    method CopyDown(r0: int, ghost c: seq<int>, ghost was: seq<Item<V>>, ghost s: int)
      requires Shape() && size == 1 && |was| <= items.Length && nextFree == s + 1 && r0 == UpFrom(c, 0)
      requires Path(was, s, c) && MovedDown(was, items[..|was|], s, c, 0)
      modifies this`nextFree, this`spaceLeft, items, tops
      ensures Shape() && nextFree == s + 1 + |c| <= |was| && MovedDown(was, items[..|was|], s, c, |c|)
      ensures tops[0] == if c == [] then old(tops[0]) else nextFree - 1
    {
      assert Moving(was, items[..|was|], s, c, 0, r0, nextFree);
      hide Moving, Copied;
      var r := r0;
      ghost var m: nat := 0;
      while r != NULL
        invariant Moving(was, items[..|was|], s, c, m, r, nextFree)
        invariant Shape() && |was| <= items.Length && 0 <= m
        invariant tops[0] == if m == 0 then old(tops[0]) else nextFree - 1
        decreases |c| - m
      {
        ghost var now := items[..|was|];
        MovingNow(was, now, s, c, m, r, nextFree);
        ghost var next, up := Copied(now, r, nextFree), now[r].pred;
        MovingGoesOn(was, now, s, c, m, r, nextFree, next, up);
        r := CopyOne(r, now);
        m := m + 1;
      }
      MovingEnds(was, items[..|was|], s, c, m, r, nextFree);
    }

    /** Returns to the packed layout when there is only one stack left. */
    method Compress()
      requires Valid() && (size == 1 && split != NULL ==> tops[0] != NULL)
      modifies this`nextFree, this`spaceLeft, this`split, this`last, items, tops
      ensures Valid() && Stacks() == old(Stacks())
      ensures old(size) == 1 ==> split == NULL
      ensures old(size) != 1 || old(split) == NULL ==>
                items[..nextFree] == old(items[..nextFree]) && split == old(split) && last == old(last)
      ensures nextFree <= old(nextFree) && nextFree + spaceLeft == old(nextFree + spaceLeft)
    {
      hide Sound, Traces;
      if size != 1 || split == NULL {
        return;
      }
      CompressOnly();
    }

    method CompressOnly()
      requires Valid() && size == 1 && split != NULL && tops[0] != NULL
      modifies this`nextFree, this`spaceLeft, this`split, this`last, items, tops
      ensures Valid() && Stacks() == old(Stacks()) && split == NULL
      ensures nextFree <= old(nextFree) && nextFree + spaceLeft == old(nextFree + spaceLeft)
    {
      hide Reaches, Above, Trace, Traces, Sound, MovedDown, Packed, Linked;
      ghost var was, ts, t, s := items[..nextFree], tops[..size], tops[0], split;
      OnlyTop(was, ts, t, s, last);
      ghost var c := Above(was, t, s);
      ghost var now := Repack(c, was);
      CompressedStacks(was, now, t, s, c, items[..nextFree], nextFree);
      assert Traces(was, ts) == Traces(items[..nextFree], tops[..size]);
    }

    method Repack(ghost c: seq<int>, ghost was: seq<Item<V>>) returns (ghost now: seq<Item<V>>)
      requires Shape() && size == 1 && was == items[..nextFree] && 0 <= split && Linked(was)
      requires Reaches(was, tops[0], split) && c == Above(was, tops[0], split)
      modifies this`nextFree, this`spaceLeft, this`split, this`last, items, tops
      ensures Shape() && split == last == NULL
      ensures nextFree == old(split) + 1 + |c| <= |was| == |now| && MovedDown(was, now, old(split), c, |c|)
      ensures items[..nextFree] == now[..nextFree] && tops[..size] == [nextFree - 1]
    {
      hide Linked, Reaches, Above, Path, MovedDown;
      ghost var s := split;
      var r := ReverseLinks(c);
      FreeAbove();
      CopyDown(r, c, was, s);
      now := items[..|was|];
    }

    /** Gives the items above the split point back. */
    method FreeAbove()
      requires Shape() && 0 <= split < nextFree
      modifies this`nextFree, this`spaceLeft, this`split, this`last
      ensures Shape() && nextFree == old(split) + 1 && split == last == NULL
    {
      spaceLeft := spaceLeft + nextFree;
      nextFree := split + 1;
      spaceLeft := spaceLeft - nextFree;
      split := NULL;
      last := NULL;
    }

    method MoveUp()
      requires Shape()
      modifies this`size, tops, needs
      ensures Shape() && (tops[..size], needs[..size]) == NonNull(old(tops[..size]), old(needs[..size]))
    {
      hide NonNull;
      var i, j := 0, 0;
      ghost var ts, ns, kept: seq<int>, flags: seq<bool> := tops[..size], needs[..size], [], [];
      NonNullNone();
      while j < size
        invariant 0 <= j <= i && j <= size && size + (i - j) == |ts| == |ns| && |ts| <= tops.Length == needs.Length
        invariant (kept, flags) == NonNull(ts[..i], ns[..i]) && tops[..j] == kept && needs[..j] == flags
        invariant forall q :: i <= q < |ts| ==> tops[q] == ts[q] && needs[q] == ns[q]
        decreases |ts| - i
      {
        NonNullNext(ts, ns, i);
        if tops[i] == NULL {
          size := size - 1;
        } else {
          Keep(i, j);
          kept, flags := kept + [ts[i]], flags + [ns[i]];
          j := j + 1;
        }
        i := i + 1;
      }
      assert ts[..i] == ts && ns[..i] == ns;
    }

    /** Stack `i` becomes stack `j`. */
    method Keep(i: nat, j: nat)
      requires j <= i < tops.Length == needs.Length
      modifies tops, needs
      ensures tops[..j + 1] == old(tops[..j] + [tops[i]]) && needs[..j + 1] == old(needs[..j] + [needs[i]])
      ensures forall q :: i < q < tops.Length ==> tops[q] == old(tops[q]) && needs[q] == old(needs[q])
    {
      tops[j] := tops[i];
      needs[j] := needs[i];
    }
  }

  // ----- one stack left -----

  /** The state of `c` at `j`, nothing above its last one. */
  function UpFrom(c: seq<int>, j: nat): int
    requires j <= |c|
  {
    if j < |c| then c[j] else NULL
  }

  /** The states `c` above `s`, at increasing addresses. */
  ghost predicate Rising<V>(was: seq<Item<V>>, s: int, c: seq<int>) {
    && 0 <= s < |was| && was[s].State?
    && (forall j :: 0 <= j < |c| ==> s < c[j] < |was| && was[c[j]].State?)
    && forall i, j :: 0 <= i < j < |c| ==> c[i] < c[j]
  }

  /** From its `k`-th on, the states of `c` are linked to the one above. */
  ghost predicate Reversed<V>(was: seq<Item<V>>, now: seq<Item<V>>, s: int, c: seq<int>, k: nat)
    requires Rising(was, s, c) && |now| == |was|
  {
    forall j :: k <= j < |c| ==> now[c[j]] == State(was[c[j]].entry, UpFrom(c, j + 1))
  }

  /** Below its `k`-th, the states of `c` are as they were, like everything at and below `s`. */
  ghost predicate Untouched<V>(was: seq<Item<V>>, now: seq<Item<V>>, s: int, c: seq<int>, k: nat)
    requires Rising(was, s, c) && |now| == |was|
  {
    && (forall j :: 0 <= j < k && j < |c| ==> now[c[j]] == was[c[j]])
    && forall i :: 0 <= i <= s ==> now[i] == was[i]
  }

  ghost predicate Upward<V>(was: seq<Item<V>>, now: seq<Item<V>>, s: int, c: seq<int>, k: nat) {
    |now| == |was| && Rising(was, s, c) && Reversed(was, now, s, c, k) && Untouched(was, now, s, c, k)
  }

  /** The path `c` above `s` of `was`, moved down to where it follows `s` immediately, up to its state `m`. */
  ghost predicate MovedDown<V>(was: seq<Item<V>>, now: seq<Item<V>>, s: int, c: seq<int>, m: nat) {
    && |now| == |was| && m <= |c| && 0 <= s && s + 1 + m <= |was|
    && (forall j :: 0 <= j < |c| ==> 0 <= c[j] < |was| && was[c[j]].State?)
    && (forall i :: 0 <= i <= s ==> now[i] == was[i])
    && Placed(was, now, s, c, m) && Waiting(was, now, c, m)
  }

  ghost predicate Placed<V>(was: seq<Item<V>>, now: seq<Item<V>>, s: int, c: seq<int>, m: nat)
    requires |now| == |was| && m <= |c| && 0 <= s && s + 1 + m <= |was| && forall j :: 0 <= j < |c| ==>
              0 <= c[j] < |was| && was[c[j]].State?
  {
    forall j :: 0 <= j < m ==> now[s + 1 + j] == State(was[c[j]].entry, s + j)
  }

  ghost predicate Waiting<V>(was: seq<Item<V>>, now: seq<Item<V>>, c: seq<int>, m: nat)
    requires |now| == |was| && forall j :: 0 <= j < |c| ==> 0 <= c[j] < |was| && was[c[j]].State?
  {
    forall j :: m <= j < |c| ==> now[c[j]] == State(was[c[j]].entry, UpFrom(c, j + 1))
  }

  lemma PathRises<V>(was: seq<Item<V>>, s: int, c: seq<int>)
    requires Path(was, s, c) && 0 <= s < |was| && was[s].State?
    ensures Rising(was, s, c)
  {
    forall j, k | 0 <= j < k < |c| ensures c[j] < c[k] {
      PathClimbs(was, s, c, j);
    }
  }

  lemma AboveBelow<V>(was: seq<Item<V>>, t: int, s: int)
    requires Reaches(was, t, s)
    ensures var c := Above(was, t, s); Path(was, s, c) && t == Below(s, c, |c|) && 0 <= s < |was|
  {
    AbovePath(was, t, s);
  }

  lemma UpwardBegins<V>(was: seq<Item<V>>, t: int, s: int, c: seq<int>)
    requires Linked(was) && Reaches(was, t, s) && c == Above(was, t, s)
    ensures Upward(was, was, s, c, |c|) && Path(was, s, c) && t == Below(s, c, |c|)
  {
    AbovePath(was, t, s);
    ReachedState(was, t, s);
    PathRises(was, s, c);
  }

  lemma {:induction false} ReachedState<V>(was: seq<Item<V>>, t: int, s: int)
    requires Reaches(was, t, s)
    ensures was[s].State?
    decreases t
  {
    if t != s {
      ReachedState(was, was[t].pred, s);
    }
  }

  lemma OnPath<V>(was: seq<Item<V>>, now: seq<Item<V>>, s: int, c: seq<int>, k: nat, p: int)
    requires Upward(was, now, s, c, k) && Path(was, s, c) && k <= |c| && p == Below(s, c, k)
    ensures 0 <= p < |was| && now[p] == was[p] && was[p].State? && (p == s <==> k == 0)
    ensures k > 0 ==> p == c[k - 1] && was[p].pred == Below(s, c, k - 1)
  {
    if k > 0 {
      assert was[c[k - 1]].State?;
    }
  }

  /** The state of the reversal with the first `k` states of `c` still to come: `p` is the next, `q` its
      predecessor and `r` the state above it. */
  ghost predicate Turning<V>(was: seq<Item<V>>, now: seq<Item<V>>, s: int, c: seq<int>, k: int, p: int, q: int,
                             r: int) {
    && 0 <= k <= |c| && Path(was, s, c) && Upward(was, now, s, c, k)
    && p == Below(s, c, k) && r == UpFrom(c, k)
    && 0 <= p < |was| && was[p].State? && now[p] == was[p] && q == was[p].pred && (p == s <==> k == 0)
  }

  lemma TurningBegins<V>(was: seq<Item<V>>, t: int, s: int, c: seq<int>)
    requires Linked(was) && Reaches(was, t, s) && c == Above(was, t, s)
    ensures 0 <= t < |was| && was[t].State? && Turning(was, was, s, c, |c|, t, was[t].pred, NULL)
  {
    UpwardBegins(was, t, s, c);
    OnPath(was, was, s, c, |c|, t);
  }

  lemma TurningGoesOn<V>(was: seq<Item<V>>, now: seq<Item<V>>, s: int, c: seq<int>, k: int, p: int, q: int, r: int)
    requires Turning(was, now, s, c, k, p, q, r) && p != s
    ensures 0 < k && 0 <= p < |now| == |was| && now[p].State?
    ensures var next := now[p := now[p].(pred := r)];
            0 <= q < |was| && next[q].State? && Turning(was, next, s, c, k - 1, q, next[q].pred, p)
  {
    OnPath(was, now, s, c, k, p);
    UpwardNext(was, now, s, c, k, p, r);
    hide Upward, Path;
    OnPath(was, now[p := now[p].(pred := r)], s, c, k - 1, q);
  }

  lemma TurningEnds<V>(was: seq<Item<V>>, now: seq<Item<V>>, s: int, c: seq<int>, k: int, p: int, q: int, r: int)
    requires Turning(was, now, s, c, k, p, q, r) && p == s
    ensures MovedDown(was, now, s, c, 0) && r == UpFrom(c, 0)
  {
    UpwardMoved(was, now, s, c);
  }

  lemma UpwardNext<V>(was: seq<Item<V>>, now: seq<Item<V>>, s: int, c: seq<int>, k: nat, p: int, r: int)
    requires Upward(was, now, s, c, k) && 0 < k <= |c| && p == c[k - 1] && r == UpFrom(c, k)
    requires 0 <= p < |was| && now[p] == was[p] && was[p].State?
    ensures Upward(was, now[p := now[p].(pred := r)], s, c, k - 1)
  {
    hide Rising, Reversed, Untouched;
    RisingAt(was, s, c, k - 1);
    ReversedNext(was, now, s, c, k, r);
    UntouchedNext(was, now, s, c, k, r);
  }

  lemma RisingAt<V>(was: seq<Item<V>>, s: int, c: seq<int>, k: nat)
    requires Rising(was, s, c) && k < |c|
    ensures 0 <= c[k] < |was| && was[c[k]].State?
  {
  }

  lemma ReversedNext<V>(was: seq<Item<V>>, now: seq<Item<V>>, s: int, c: seq<int>, k: nat, r: int)
    requires |now| == |was| && Rising(was, s, c) && Reversed(was, now, s, c, k) && 0 < k <= |c| && r == UpFrom(c, k)
    requires now[c[k - 1]] == was[c[k - 1]]
    ensures var p := c[k - 1]; Reversed(was, now[p := now[p].(pred := r)], s, c, k - 1)
  {
  }

  lemma UntouchedNext<V>(was: seq<Item<V>>, now: seq<Item<V>>, s: int, c: seq<int>, k: nat, r: int)
    requires |now| == |was| && Rising(was, s, c) && Untouched(was, now, s, c, k) && 0 < k <= |c|
    ensures var p := c[k - 1]; Untouched(was, now[p := now[p].(pred := r)], s, c, k - 1)
  {
  }

  lemma UpwardMoved<V>(was: seq<Item<V>>, now: seq<Item<V>>, s: int, c: seq<int>)
    requires Upward(was, now, s, c, 0)
    ensures MovedDown(was, now, s, c, 0)
  {
  }

  lemma PlacedOne<V>(was: seq<Item<V>>, now: seq<Item<V>>, s: int, c: seq<int>, m: nat)
    requires MovedDown(was, now, s, c, m) && m < |c| && s + 1 + m < |was|
    ensures now[c[m]].State? && Placed(was, now[s + 1 + m := now[c[m]].(pred := s + m)], s, c, m + 1)
  {
    assert now[c[m]] == State(was[c[m]].entry, UpFrom(c, m + 1));
    hide Waiting, UpFrom;
  }

  lemma WaitingOn<V>(was: seq<Item<V>>, now: seq<Item<V>>, c: seq<int>, m: nat, to: int, item: Item<V>)
    requires |now| == |was| && (forall j :: 0 <= j < |c| ==> 0 <= c[j] < |was| && was[c[j]].State?)
    requires Waiting(was, now, c, m) && 0 <= to < |now| && forall j :: m < j < |c| ==> to < c[j]
    ensures Waiting(was, now[to := item], c, m + 1)
  {
    hide UpFrom;
  }

  /** Copying a state down overwrites none that is still to be copied. */
  lemma MoveOne<V>(was: seq<Item<V>>, now: seq<Item<V>>, s: int, c: seq<int>, m: nat)
    requires MovedDown(was, now, s, c, m) && Path(was, s, c) && m < |c| && 0 <= s
    ensures s + 1 + m <= c[m] && now[c[m]].State?
    ensures MovedDown(was, now[s + 1 + m := now[c[m]].(pred := s + m)], s, c, m + 1)
  {
    hide Path, Placed, Waiting, UpFrom;
    PathClimbs(was, s, c, m);
    PlacedOne(was, now, s, c, m);
    WaitingOn(was, now, c, m, s + 1 + m, now[c[m]].(pred := s + m));
  }

  /** The state of the copying: `m` states are done, `r` is the next. */
  ghost predicate Moving<V>(was: seq<Item<V>>, now: seq<Item<V>>, s: int, c: seq<int>, m: int, r: int, to: int) {
    0 <= m <= |c| && Path(was, s, c) && MovedDown(was, now, s, c, m) && r == UpFrom(c, m) && to == s + 1 + m <= |was|
  }

  /** The state at `r` copied to `to` and linked to the item before. */
  ghost function Copied<V>(now: seq<Item<V>>, r: int, to: int): seq<Item<V>>
    requires 0 <= r < |now| && 0 <= to < |now| && now[r].State?
  {
    now[to := now[r].(pred := to - 1)]
  }

  lemma MovingNow<V>(was: seq<Item<V>>, now: seq<Item<V>>, s: int, c: seq<int>, m: int, r: int, to: int)
    requires Moving(was, now, s, c, m, r, to) && r != NULL
    ensures m < |c| && 0 <= to <= r < |now| == |was| && now[r].State?
  {
    MoveOne(was, now, s, c, m);
  }

  lemma MovingGoesOn<V>(was: seq<Item<V>>, now: seq<Item<V>>, s: int, c: seq<int>, m: int, r: int, to: int,
                        next: seq<Item<V>>, up: int)
    requires Moving(was, now, s, c, m, r, to) && m < |c| && 0 <= to <= r < |now| && now[r].State?
    requires next == Copied(now, r, to) && up == now[r].pred
    ensures Moving(was, next, s, c, m + 1, up, to + 1)
  {
    MoveOne(was, now, s, c, m);
  }

  lemma MovingEnds<V>(was: seq<Item<V>>, now: seq<Item<V>>, s: int, c: seq<int>, m: int, r: int, to: int)
    requires Moving(was, now, s, c, m, r, to) && r == NULL
    ensures m == |c| && to == s + 1 + |c| && MovedDown(was, now, s, c, |c|)
  {
  }

  lemma {:induction false} MovedTrace<V>(was: seq<Item<V>>, now: seq<Item<V>>, s: int, c: seq<int>, m: nat)
    requires MovedDown(was, now, s, c, |c|) && m <= |c| && 0 <= s && Trace(now, s) == Trace(was, s)
    ensures Trace(now, s + m) == Trace(was, s) + Entries(was, c)[..m]
  {
    if m > 0 {
      MovedTrace(was, now, s, c, m - 1);
      assert now[s + m] == State(was[c[m - 1]].entry, s + m - 1);
      assert Entries(was, c)[..m] == Entries(was, c)[..m - 1] + [was[c[m - 1]].entry];
    }
  }

  lemma CompressedTrace<V>(was: seq<Item<V>>, now: seq<Item<V>>, t: int, s: int, c: seq<int>)
    requires Reaches(was, t, s) && c == Above(was, t, s) && MovedDown(was, now, s, c, |c|)
    ensures var n := s + 1 + |c|; Trace(now[..n], n - 1) == Trace(was, t)
  {
    hide Trace, Reaches, Above, Path, UpFrom, Placed, Waiting, Below, Entries;
    var n := s + 1 + |c|;
    AbovePath(was, t, s);
    TraceSame(was, now, s);
    MovedTrace(was, now, s, c, |c|);
    TraceSame(now, now[..n], n - 1);
    assert Entries(was, c)[..|c|] == Entries(was, c);
  }

  lemma OnlyTop<V>(items: seq<Item<V>>, tops: seq<int>, t: int, split: int, last: int)
    requires Sound(items, tops, split, last) && split != NULL && t != NULL && |tops| == 1 && tops[0] == t
    ensures tops == [t] && 0 <= split && Linked(items) && Packed(items, split + 1) && Reaches(items, t, split)
  {
  }

  lemma MovedDownFits<V>(was: seq<Item<V>>, now: seq<Item<V>>, s: int, c: seq<int>)
    requires MovedDown(was, now, s, c, |c|)
    ensures |now| == |was| && 0 <= s && s + 1 + |c| <= |was|
  {
  }

  lemma CompressedStacks<V>(was: seq<Item<V>>, now: seq<Item<V>>, t: int, s: int, c: seq<int>, cut: seq<Item<V>>,
                            n: int)
    requires Reaches(was, t, s) && c == Above(was, t, s) && Packed(was, s + 1) && MovedDown(was, now, s, c, |c|)
    requires n == s + 1 + |c| <= |now|
    requires cut == now[..n]
    ensures Sound(cut, [n - 1], NULL, NULL) && Traces(cut, [n - 1]) == Traces(was, [t])
  {
    hide Path, Placed, Waiting, UpFrom, Reaches, Above, Packed, MovedDown, Trace, Sound;
    MovedDownFits(was, now, s, c);
    CompressedSound(was, now, s, c);
    CompressedTrace(was, now, t, s, c);
  }

  lemma CompressedSound<V>(was: seq<Item<V>>, now: seq<Item<V>>, s: int, c: seq<int>)
    requires Packed(was, s + 1) && MovedDown(was, now, s, c, |c|)
    ensures var n := s + 1 + |c|; Sound(now[..n], [n - 1], NULL, NULL)
  {
    var n := s + 1 + |c|;
    forall i | 0 <= i < n ensures now[..n][i].State? && now[..n][i].pred == i - 1 {
      if i > s {
        var j := i - s - 1;
        assert now[s + 1 + j] == State(was[c[j]].entry, s + j);
      }
    }
    assert Packed(now[..n], n);
  }

  lemma NonNullNone()
    ensures NonNull([], []) == ([], [])
  {
  }

  lemma NonNullNext(tops: seq<int>, what: seq<bool>, i: nat)
    requires i < |tops| == |what|
    ensures var (ts, w) := NonNull(tops[..i], what[..i]);
            NonNull(tops[..i + 1], what[..i + 1]) == if tops[i] == NULL then (ts, w)
                                                     else (ts + [tops[i]], w + [what[i]])
  {
    assert tops[..i + 1][..i] == tops[..i] && what[..i + 1][..i] == what[..i];
  }

  lemma DeletesSound<V>(items: seq<Item<V>>, tops: seq<int>, what: seq<bool>, split: int, last: int)
    requires Sound(items, tops, split, last) && |what| == |tops| && (split == NULL ==> tops[0] != NULL)
    ensures var (ts, w) := NonNull(tops, what);
            Sound(items, ts, split, last) && (Traces(items, ts), w) == Nonempty(Traces(items, tops), what)
                && NULL !in ts
  {
    hide Trace, Reaches, NonNull, Nonempty, Linked, Packed;
    TopsBounded(items, tops, split, last);
    NonNullTraces(items, tops, what);
    if split == NULL {
      OnlyNonNull(tops, what);
    } else {
      assert forall t :: t in tops && t != NULL ==> Reaches(items, t, split);
    }
  }

  lemma OnlyNonNull(tops: seq<int>, what: seq<bool>)
    requires |tops| == |what| == 1 && tops[0] != NULL
    ensures NonNull(tops, what) == (tops, what)
  {
    NonNullNone();
    NonNullNext(tops, what, 0);
    assert tops[..0] == [] && what[..0] == [] && tops[..1] == tops && what[..1] == what;
    assert [] + [tops[0]] == tops && [] + [what[0]] == what;
  }

  lemma SplitSound<V>(items: seq<Item<V>>, tops: seq<int>, split: int, last: int, k: nat)
    requires Sound(items, tops, split, last) && k < |tops| && tops[k] != NULL
    ensures Sound(items, tops + [tops[k]], if split == NULL then tops[k] else split, last)
    ensures Traces(items, tops + [tops[k]]) == Traces(items, tops) + [Trace(items, tops[k])]
  {
    if split == NULL {
      assert Reaches(items, tops[k], tops[k]);
    }
  }

  lemma SoundLinked<V>(items: seq<Item<V>>, tops: seq<int>, split: int, last: int)
    requires Sound(items, tops, split, last)
    ensures Linked(items) && forall k :: 0 <= k < |tops| && split != NULL && tops[k] != NULL ==>
              Reaches(items, tops[k], tops[k])
  {
  }
}
