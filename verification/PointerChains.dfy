/** Chains of pointers to a value, as deep as a variable's pointer level. */
module PointerChains {
  import opened Options

  /** Memory cells by address; an address is a multiple of the size of a pointer. */
  type Cells = map<nat, nat>

  const NULL: nat := 0

  /** A variable as declared: its pointer level and, for an array, its size. */
  datatype Var = Var(level: nat, arraySize: nat)

  /** The address reached from `a` through `n` pointers, if all of them can be read. */
  function Walk(cells: Cells, a: nat, n: nat): Option<nat> {
    if n == 0 then Some(a)
    else match Walk(cells, a, n - 1)
         case None => None
         case Some(b) => if b in cells then Some(cells[b]) else None
  }

  /** The links of a variable's chain; an array has one more, its last cell being an element of it. */
  function Links(v: Var): (n: nat)
    ensures n <= v.level
  {
    if v.level == 0 then 0 else if v.arraySize == 0 then v.level - 1 else v.level
  }

  /** `level + 1` cells from `val`, the first ones linked, the next pointing to `ptr`, the others empty. */
  ghost predicate Chain(cells: Cells, val: nat, v: Var, ptr: nat) {
    && (forall a :: val <= a <= val + v.level ==> a in cells)
    && (forall a :: val <= a < val + Links(v) ==> cells[a] == a + 1)
    && cells[val + Links(v)] == ptr
    && forall a :: val + Links(v) < a <= val + v.level ==> cells[a] == NULL
  }

  /** What a variable's reference is: the pointer itself at level 0, and a chain otherwise. */
  ghost predicate Refers(cells: Cells, val: nat, v: Var, ptr: nat) {
    if v.level == 0 then val == ptr else Chain(cells, val, v, ptr)
  }

  lemma {:induction false} ChainWalk(cells: Cells, val: nat, v: Var, ptr: nat, n: nat)
    requires Chain(cells, val, v, ptr) && n <= Links(v) + 1
    ensures Walk(cells, val, n) == Some(if n <= Links(v) then val + n else ptr)
  {
    if n > 0 {
      ChainWalk(cells, val, v, ptr, n - 1);
      assert val + (n - 1) in cells;
    }
  }

  lemma {:induction false} WalkOn(cells: Cells, a: nat, m: nat, n: nat)
    requires Walk(cells, a, m).Some?
    ensures Walk(cells, a, m + n) == Walk(cells, Walk(cells, a, m).value, n)
  {
    if n > 0 {
      WalkOn(cells, a, m, n - 1);
    }
  }

  /** Dereferencing as often as the pointer level says gives the pointer back, unless the variable is
      an array: then it gives the cell that holds the pointer. Fewer times give the cells in between. */
  lemma RoundTrip(cells: Cells, val: nat, v: Var, ptr: nat)
    requires Refers(cells, val, v, ptr)
    ensures v.arraySize == 0 || v.level == 0 ==> Walk(cells, val, v.level) == Some(ptr)
    ensures v.arraySize != 0 && v.level > 0 ==>
              Walk(cells, val, v.level) == Some(val + v.level) && cells[val + v.level] == ptr
    ensures forall n :: 0 <= n < v.level ==> Walk(cells, val, n) == Some(val + n)
  {
    if v.level > 0 {
      ChainWalk(cells, val, v, ptr, v.level);
      forall n | 0 <= n < v.level ensures Walk(cells, val, n) == Some(val + n) {
        ChainWalk(cells, val, v, ptr, n);
      }
    }
  }

  /** So the promise of getting the pointer back holds exactly for variables that are not arrays,
      as long as the pointer does not point at its own cell. */
  lemma RoundTripExactly(cells: Cells, val: nat, v: Var, ptr: nat)
    requires Refers(cells, val, v, ptr) && v.level > 0 && ptr != val + v.level
    ensures Walk(cells, val, v.level) == Some(ptr) <==> v.arraySize == 0
  {
    RoundTrip(cells, val, v, ptr);
  }

  /** Past the pointer the walk goes on in what it points to. */
  lemma WalkPast(cells: Cells, val: nat, v: Var, ptr: nat, n: nat)
    requires Chain(cells, val, v, ptr)
    ensures Walk(cells, val, Links(v) + 1 + n) == Walk(cells, ptr, n)
  {
    ChainWalk(cells, val, v, ptr, Links(v) + 1);
    WalkOn(cells, val, Links(v) + 1, n);
  }

  /** Walks are not disturbed by what is written elsewhere. */
  lemma {:induction false} WalkKept(cells: Cells, more: Cells, a: nat, n: nat)
    requires forall b :: b in cells ==> b in more && more[b] == cells[b]
    requires Walk(cells, a, n).Some?
    ensures Walk(more, a, n) == Walk(cells, a, n)
  {
    if n > 0 {
      WalkKept(cells, more, a, n - 1);
    }
  }

  function Block(base: nat, n: nat): (block: set<nat>)
    ensures forall a :: a in block <==> base <= a < base + n
  {
    if n == 0 then {} else Block(base, n - 1) + {base + n - 1}
  }

  class Memory {
    var cells: Cells
    var next: nat

    ghost predicate Valid()
      reads this
    {
      NULL < next && forall a :: a in cells ==> NULL < a < next
    }

    constructor ()
      ensures Valid() && cells == map[]
    {
      cells, next := map[], 1;
    }

    method Calloc(n: nat) returns (base: nat)
      requires Valid() && n > 0
      modifies this
      ensures Valid() && base == old(next) && base != NULL && next == base + n
      ensures forall a :: a in cells <==> a in old(cells) || base <= a < base + n
      ensures forall a :: a in old(cells) ==> cells[a] == old(cells)[a]
      ensures forall a :: base <= a < base + n ==> cells[a] == NULL
    {
      base := next;
      cells := map a | a in cells.Keys + Block(base, n) :: if a in cells then cells[a] else NULL;
      next := next + n;
    }

    /** enref_impl_val. Only the cells it allocates are written. */
    method Enref(ptr: nat, v: Var) returns (val: nat)
      requires Valid()
      modifies this
      ensures Valid() && Refers(cells, val, v, ptr)
      ensures v.level == 0 ==> cells == old(cells) && next == old(next)
      ensures v.level > 0 ==> val == old(next) && val != NULL && next == val + v.level + 1
      ensures forall a :: a in cells <==> a in old(cells) || (v.level > 0 && val <= a <= val + v.level)
      ensures forall a :: a in old(cells) ==> a in cells && cells[a] == old(cells)[a]
    {
      if v.level == 0 {
        return ptr;
      }
      val := Calloc(v.level + 1);
      var valPtr := val;
      ghost var links: nat := 0;
      ghost var cleared := cells;
      for i := (if v.arraySize == 0 then 1 else 0) to v.level
        invariant links == i - if v.arraySize == 0 then 1 else 0
        invariant valPtr == val + links && cells.Keys == cleared.Keys && next == val + v.level + 1
        invariant forall a :: val <= a < val + links ==> cells[a] == a + 1
        invariant forall a :: a in cells && (a < val || val + links <= a) ==> cells[a] == cleared[a]
      {
        cells := cells[valPtr := valPtr + 1];
        valPtr := cells[valPtr];
        links := links + 1;
      }
      cells := cells[valPtr := ptr];
    }

    /** deref_impl_val. */
    method Deref(val: nat, level: nat) returns (r: nat)
      requires Walk(cells, val, level).Some?
      ensures Walk(cells, val, level) == Some(r)
    {
      r := val;
      for i := 0 to level
        invariant Walk(cells, val, i) == Some(r)
      {
        WalkDefined(cells, val, i + 1, level);
        r := cells[r];
      }
    }
  }

  lemma {:induction false} WalkDefined(cells: Cells, a: nat, m: nat, n: nat)
    requires m <= n && Walk(cells, a, n).Some?
    ensures Walk(cells, a, m).Some?
  {
    if m < n {
      WalkDefined(cells, a, m, n - 1);
    }
  }
}
