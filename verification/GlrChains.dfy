/** States linked to their predecessors in one array, shared by several parse stacks. */
module GlrChains {

  const NULL := -1

  /** A semantic value, or the first of the deferred actions that will compute it. */
  datatype Semantics<V> = Resolved(value: V) | Unresolved(first: int)

  /** What a state says, apart from where its predecessor is. */
  datatype Entry<V> = Entry(lr: nat, posn: nat, sem: Semantics<V>)

  /** An item of the array: a state, or a deferred action for the state with top of right hand side `rhs`. */
  datatype Item<V> = State(entry: Entry<V>, pred: int) | Option(rule: nat, rhs: int, next: int)

  /** Predecessors lie below their states. */
  ghost predicate Linked<V>(items: seq<Item<V>>) {
    forall i :: 0 <= i < |items| && items[i].State? ==>
                  NULL <= items[i].pred < i && (items[i].pred != NULL ==> items[items[i].pred].State?)
  }

  /** The layout of a single stack: each state follows its predecessor immediately. */
  ghost predicate Packed<V>(items: seq<Item<V>>, n: int) {
    n <= |items| && forall i :: 0 <= i < n ==> items[i].State? && items[i].pred == i - 1
  }

  /** The stack with top `t`, bottom first. */
  ghost function Trace<V>(items: seq<Item<V>>, t: int): seq<Entry<V>>
    decreases t
  {
    if 0 <= t < |items| && items[t].State? && items[t].pred < t
    then Trace(items, items[t].pred) + [items[t].entry] else []
  }

  /** Whether the stack with top `t` goes through `s`. */
  ghost predicate Reaches<V>(items: seq<Item<V>>, t: int, s: int)
    decreases t
  {
    0 <= s <= t < |items| && items[t].State? && (t == s || (items[t].pred < t && Reaches(items, items[t].pred, s)))
  }

  /** The states of a stack above `s`, bottom first. */
  ghost function Above<V>(items: seq<Item<V>>, t: int, s: int): (c: seq<int>)
    requires Reaches(items, t, s)
    decreases t
  {
    if t == s then [] else Above(items, items[t].pred, s) + [t]
  }

  /** A path of states upwards from `s`, each the predecessor of the next, at increasing addresses. */
  ghost predicate Path<V>(items: seq<Item<V>>, s: int, c: seq<int>) {
    forall j :: 0 <= j < |c| ==>
      0 <= s < c[j] < |items| && items[c[j]].State? && items[c[j]].pred == Below(s, c, j) < c[j]
  }

  function Below(s: int, c: seq<int>, j: nat): int
    requires j <= |c|
  {
    if j == 0 then s else c[j - 1]
  }

  ghost function Entries<V>(items: seq<Item<V>>, c: seq<int>): (es: seq<Entry<V>>)
    requires forall j :: 0 <= j < |c| ==> 0 <= c[j] < |items| && items[c[j]].State?
    ensures |es| == |c| && forall j :: 0 <= j < |c| ==> es[j] == items[c[j]].entry
  {
    seq(|c|, j requires 0 <= j < |c| => items[c[j]].entry)
  }

  lemma {:induction false} AbovePath<V>(items: seq<Item<V>>, t: int, s: int)
    requires Reaches(items, t, s)
    ensures var c := Above(items, t, s);
            && Path(items, s, c) && t == (if c == [] then s else c[|c| - 1])
            && Trace(items, t) == Trace(items, s) + Entries(items, c)
    decreases t
  {
    if t != s {
      AbovePath(items, items[t].pred, s);
    }
  }

  /** A path's states climb at least one item each. */
  lemma PathClimbs<V>(items: seq<Item<V>>, s: int, c: seq<int>, j: nat)
    requires Path(items, s, c) && j < |c|
    ensures s + 1 + j <= c[j] && forall k :: j < k < |c| ==> c[j] < c[k]
  {
    Climb(items, s, c, j);
    forall k | j < k < |c| ensures c[j] < c[k] {
      ClimbOver(items, s, c, j, k);
    }
  }

  lemma {:induction false} ClimbOver<V>(items: seq<Item<V>>, s: int, c: seq<int>, j: nat, k: nat)
    requires Path(items, s, c) && j < k < |c|
    ensures c[j] < c[k]
  {
    hide Path;
    PathAt(items, s, c, k);
    if j < k - 1 {
      ClimbOver(items, s, c, j, k - 1);
    }
  }

  lemma PathAt<V>(items: seq<Item<V>>, s: int, c: seq<int>, k: nat)
    requires Path(items, s, c) && k < |c|
    ensures 0 <= s < c[k] < |items| && Below(s, c, k) < c[k]
  {
    hide Below;
  }

  lemma {:induction false} Climb<V>(items: seq<Item<V>>, s: int, c: seq<int>, j: nat)
    requires Path(items, s, c) && j < |c|
    ensures s + 1 + j <= c[j]
  {
    hide Path;
    PathAt(items, s, c, j);
    if j > 0 {
      Climb(items, s, c, j - 1);
    }
  }

  /** A stack is what lies at and below its top. */
  lemma {:induction false} TraceSame<V>(a: seq<Item<V>>, b: seq<Item<V>>, t: int)
    requires t < |a| && t < |b| && forall i :: 0 <= i <= t ==> a[i] == b[i]
    ensures Trace(a, t) == Trace(b, t)
    decreases t
  {
    if 0 <= t && a[t].State? && a[t].pred < t {
      TraceSame(a, b, a[t].pred);
    }
  }

  lemma {:induction false} ReachesSame<V>(a: seq<Item<V>>, b: seq<Item<V>>, t: int, s: int)
    requires t < |a| && t < |b| && forall i :: 0 <= i <= t ==> a[i] == b[i]
    ensures Reaches(a, t, s) <==> Reaches(b, t, s)
    decreases t
  {
    if 0 <= t && a[t].State? && a[t].pred < t {
      ReachesSame(a, b, a[t].pred, s);
    }
  }

  /** In the layout of a single stack the path up to `t` has `t + 1` states, and a state is reached from every one
      above it. */
  lemma {:induction false} PackedTrace<V>(items: seq<Item<V>>, n: int, t: int)
    requires Packed(items, n) && NULL <= t < n
    ensures |Trace(items, t)| == t + 1
    ensures forall s :: 0 <= s <= t ==> Reaches(items, t, s) && Trace(items, s) == Trace(items, t)[..s + 1]
    ensures forall i :: 0 <= i <= t ==> Trace(items, t)[i] == items[i].entry
    decreases t + 1
  {
    if t >= 0 {
      PackedTrace(items, n, t - 1);
    }
  }

  lemma {:induction false} ReachesDown<V>(items: seq<Item<V>>, t: int, s: int, r: int)
    requires Reaches(items, t, s) && Reaches(items, s, r)
    ensures Reaches(items, t, r)
    decreases t
  {
    if t != s {
      ReachesDown(items, items[t].pred, s, r);
    }
  }

  /** Two states of one stack are on it in the order of their addresses. */
  lemma {:induction false} ReachesBoth<V>(items: seq<Item<V>>, t: int, s: int, r: int)
    requires Reaches(items, t, s) && Reaches(items, t, r) && r <= s
    ensures Reaches(items, s, r)
    decreases t
  {
    if t != s {
      ReachesBoth(items, items[t].pred, s, r);
    }
  }

  /** The state `n` predecessors down from `t`. */
  ghost function Down<V>(items: seq<Item<V>>, t: int, n: nat): int {
    if n == 0 then t
    else
      var s := Down(items, t, n - 1);
      if 0 <= s < |items| && items[s].State? then items[s].pred else NULL
  }

  /** Moving the end of the array does the same as following the predecessors. */
  ghost predicate Arithmetic<V>(items: seq<Item<V>>, t: int) {
    forall n: nat :: n <= |items| ==> Down(items, t, n) == t - n
  }

  /** That is so exactly in the packed layout. */
  lemma ArithmeticNeedsPacking<V>(items: seq<Item<V>>, t: int)
    requires t == |items| - 1 && forall i :: 0 <= i < |items| ==> items[i].State?
    ensures Arithmetic(items, t) <==> Packed(items, |items|)
  {
    if Packed(items, |items|) {
      forall n: nat | n <= |items| ensures Down(items, t, n) == t - n {
        PackedDown(items, t, n);
      }
    }
    if Arithmetic(items, t) {
      forall i | 0 <= i < |items| ensures items[i].pred == i - 1 {
        var n: nat := |items| - i;
        assert Down(items, t, n - 1) == t - (n - 1) == i;
        assert Down(items, t, n) == t - n;
      }
    }
  }

  lemma {:induction false} PackedDown<V>(items: seq<Item<V>>, t: int, n: nat)
    requires t == |items| - 1 && Packed(items, |items|) && n <= |items|
    ensures Down(items, t, n) == t - n
  {
    if n > 0 {
      PackedDown(items, t, n - 1);
    }
  }
}
