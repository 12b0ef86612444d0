/** psi_data_validate itself: five lists, rechecked until a pass accepts nothing. */
module ValidationRun {
  import opened Validation

  const SIZE_MAX := 0xFFFF_FFFF_FFFF_FFFF

  datatype Flags = Flags(silent: bool, others: nat)

  /** A psi_plist of declarations. */
  class List {
    var items: seq<Decl>

    constructor (items: seq<Decl>)
      ensures this.items == items
    {
      this.items := items;
    }
  }

  function Items(l: List?): seq<Decl>
    reads l
  {
    if l == null then [] else l.items
  }

  /** One list per category, in the order of a pass; a missing one is empty. */
  type Lists = ls: seq<List?> | |ls| == 5 witness [null, null, null, null, null]

  const CATEGORIES := [Types, Structs, Unions, Enums, Decls]

  /** All declarations in the order of one pass. */
  function Flat(ls: seq<List?>): seq<Decl>
    reads ls
  {
    if ls == [] then [] else Flat(ls[..|ls| - 1]) + Items(ls[|ls| - 1])
  }

  ghost predicate Sorted(ls: Lists)
    reads ls
  {
    forall k, d :: 0 <= k < 5 && d in Items(ls[k]) ==> d.cat == CATEGORIES[k]
  }

  ghost function Allocated(ls: seq<List?>): set<List> {
    set l: List | l in ls
  }

  ghost predicate Apart(ls: seq<List?>) {
    forall i, j :: 0 <= i < j < |ls| && ls[i] == ls[j] ==> ls[i] == null
  }

  /** The declarations of one file and its error count. */
  class Source {
    const lists: Lists
    var errors: nat

    constructor (lists: Lists, errors: nat)
      ensures this.lists == lists && this.errors == errors
    {
      this.lists, this.errors := lists, errors;
    }
  }

  /** All declarations accepted so far, with the type stack of the call under way. */
  class Data {
    var known: seq<Decl>
    var stack: set<Decl>
    var flags: Flags
    /** The temporary lists that are not freed yet. */
    ghost var temps: set<List>

    constructor (flags: Flags)
      ensures known == [] && stack == {} && this.flags == flags && temps == {}
    {
      known, stack, this.flags := [], {}, flags;
      temps := {};
    }

    /** A declaration that is on the type stack passes; any other type, struct or union goes there. */
    method Check(valid: Validator, d: Decl) returns (ok: bool)
      requires Stacked(d.cat) ==> d in known
      modifies this`stack
      ensures ok == Passes(valid, d, Elements(known), old(stack)) && stack == StackAfter(d, old(stack))
    {
      if Stacked(d.cat) {
        if d in stack {
          assert stack + {d} == stack;
          return true;
        }
        stack := stack + {d};
      }
      ok := valid(d, Elements(known) + stack);
      assert Stacked(d.cat) ==> Elements(known) + stack == Elements(known) + old(stack) + {d};
    }

    /** Types, structs and unions are known while they are checked, enums and functions only after. */
    method CheckOne(valid: Validator, d: Decl) returns (ok: bool)
      modifies this`stack, this`known
      ensures ok == Passes(valid, d, Elements(old(known)), old(stack)) && stack == StackAfter(d, old(stack))
      ensures known == if ok then old(known) + [d] else old(known)
    {
      if Stacked(d.cat) {
        known := known + [d];
        ok := Check(valid, d);
        ElementsLast(old(known), d);
        assert Elements(old(known)) + {d} + old(stack) + {d} == Elements(old(known)) + old(stack) + {d};
        if !ok {
          known := known[..|known| - 1];
        }
      } else {
        ok := Check(valid, d);
        if ok {
          known := known + [d];
        }
      }
    }

    method CheckList(valid: Validator, list: List?, recheck: List?)
      requires list != null && list.items != [] ==> recheck != null
      requires Items(recheck) == [] && (recheck != null ==> recheck != list)
      modifies this`stack, this`known, recheck
      ensures PassSoFar(valid, State(Elements(old(known)), old(stack)), Items(list), old(known), known, stack,
              Items(recheck))
    {
      hide Sweep, Rest, Elements, Passes, StackAfter, PassSoFar;
      PassBegins(valid, known, stack);
      if list != null {
        var i := 0;
        ghost var s, done: seq<Decl> := State(Elements(known), stack), [];
        while i < |list.items|
          invariant 0 <= i <= |list.items| && list.items == old(list.items) && done == list.items[..i]
          invariant PassSoFar(valid, s, done, old(known), known, stack, Items(recheck))
        {
          var d := list.items[i];
          ghost var was, rest := State(Elements(known), stack), Items(recheck);
          PassGoesOn(valid, s, done, old(known), known, stack, rest, d);
          var ok := CheckOne(valid, d);
          if !ok {
            recheck.items := recheck.items + [d];
          }
          done := done + [d];
          i := i + 1;
        }
        assert done == list.items;
      }
    }

    /** A list for the declarations of one category that fail, if there are any to check. */
    method NewList(count: nat) returns (l: List?)
      modifies this`temps
      ensures count == 0 ==> l == null && temps == old(temps)
      ensures count > 0 ==> l != null && fresh(l) && l.items == [] && temps == old(temps) + {l}
    {
      l := null;
      if count > 0 {
        l := new List([]);
        temps := temps + {l};
      }
    }

    method NewLists(check: Lists) returns (recheck: Lists)
      modifies this`temps
      ensures forall k :: 0 <= k < 5 && recheck[k] != null ==> fresh(recheck[k]) && recheck[k].items == []
      ensures forall k :: 0 <= k < 5 ==> (Items(check[k]) != [] <==> recheck[k] != null)
      ensures Apart(recheck) && temps == old(temps) + Allocated(recheck)
    {
      var made := [];
      for k := 0 to 5
        invariant |made| == k && Apart(made) && temps == old(temps) + Allocated(made)
        invariant forall i :: 0 <= i < k && made[i] != null ==> fresh(made[i]) && made[i].items == []
        invariant forall i :: 0 <= i < k ==> (Items(check[i]) != [] <==> made[i] != null)
      {
        var l := NewList(|Items(check[k])|);
        made := made + [l];
      }
      recheck := made;
    }

    method CheckAt(valid: Validator, check: Lists, recheck: Lists, k: nat)
      requires k < 5 && (Items(check[k]) != [] ==> recheck[k] != null)
      requires Items(recheck[k]) == []
      requires forall i :: 0 <= i < 5 && check[i] == recheck[k] ==> recheck[k] == null
      requires forall i :: 0 <= i < 5 && i != k && recheck[i] == recheck[k] ==> recheck[k] == null
      modifies this`stack, this`known, recheck[k]
      ensures PassSoFar(valid, State(Elements(old(known)), old(stack)), Items(check[k]), old(known), known, stack,
              Items(recheck[k]))
      ensures Flat(check[..k]) == old(Flat(check[..k])) && Flat(recheck[..k]) == old(Flat(recheck[..k]))
      ensures forall i :: 0 <= i < 5 ==> Items(check[i]) == old(Items(check[i]))
      ensures forall i :: 0 <= i < 5 && i != k ==> Items(recheck[i]) == old(Items(recheck[i]))
    {
      hide Sweep, Rest, Elements, PassSoFar, Flat;
      CheckList(valid, check[k], recheck[k]);
      assert forall i :: 0 <= i < k ==> check[..k][i] != recheck[k] || recheck[k] == null;
      assert forall i :: 0 <= i < k ==> recheck[..k][i] != recheck[k] || recheck[k] == null;
    }

    method CheckNext(valid: Validator, check: Lists, recheck: Lists, k: nat, ghost s: State, ghost before: seq<Decl>)
      requires k < 5 && (Items(check[k]) != [] ==> recheck[k] != null)
      requires Items(recheck[k]) == []
      requires forall i :: 0 <= i < 5 && check[i] == recheck[k] ==> recheck[k] == null
      requires forall i :: 0 <= i < 5 && i != k && recheck[i] == recheck[k] ==> recheck[k] == null
      requires PassSoFar(valid, s, Flat(check[..k]), before, known, stack, Flat(recheck[..k]))
      modifies this`stack, this`known, recheck[k]
      ensures PassSoFar(valid, s, Flat(check[..k + 1]), before, known, stack, Flat(recheck[..k + 1]))
      ensures forall i :: 0 <= i < 5 ==> Items(check[i]) == old(Items(check[i]))
      ensures forall i :: 0 <= i < 5 && i != k ==> Items(recheck[i]) == old(Items(recheck[i]))
    {
      hide Sweep, Rest, Elements, PassSoFar, Flat;
      ghost var known1, stack1, done, rest := known, stack, Flat(check[..k]), Flat(recheck[..k]);
      CheckAt(valid, check, recheck, k);
      PassAppends(valid, s, done, Items(check[k]), before, known1, stack1, rest, known, stack, Items(recheck[k]));
      FlatNext(check, k);
      FlatNext(recheck, k);
    }

    method CheckLists(valid: Validator, check: Lists, recheck: Lists)
      requires Apart(recheck) && forall i, k :: 0 <= i < 5 && 0 <= k < 5 && check[i] == recheck[k] ==>
                recheck[k] == null
      requires forall k :: 0 <= k < 5 && Items(check[k]) != [] ==> recheck[k] != null
      requires forall k :: 0 <= k < 5 ==> Items(recheck[k]) == []
      modifies this`stack, this`known, recheck
      ensures PassSoFar(valid, State(Elements(old(known)), old(stack)), old(Flat(check)), old(known), known, stack,
              Flat(recheck))
      ensures forall i :: 0 <= i < 5 ==> Items(check[i]) == old(Items(check[i]))
    {
      hide Sweep, Rest, Elements, PassSoFar;
      ghost var s := State(Elements(known), stack);
      PassBegins(valid, known, stack);
      for k := 0 to 5
        invariant forall i :: 0 <= i < 5 ==> Items(check[i]) == old(Items(check[i]))
        invariant forall j :: k <= j < 5 ==> Items(recheck[j]) == []
        invariant PassSoFar(valid, s, Flat(check[..k]), old(known), known, stack, Flat(recheck[..k]))
      {
        CheckNext(valid, check, recheck, k, s, old(known));
      }
      assert check[..5] == check && recheck[..5] == recheck;
      SameItems(check);
    }

    /** One pass. */
    method Round(valid: Validator, check: Lists) returns (recheck: Lists)
      modifies this`stack, this`known, this`temps
      ensures PassSoFar(valid, State(Elements(old(known)), old(stack)), Flat(check), old(known), known, stack,
              Flat(recheck))
      ensures forall l: List :: l in recheck ==> fresh(l)
      ensures Apart(recheck) && temps == old(temps) + Allocated(recheck)
      ensures Flat(check) == [] ==> Allocated(recheck) == {}
    {
      NothingListed(check);
      hide Sweep, Rest, Elements, PassSoFar;
      recheck := NewLists(check);
      CheckLists(valid, check, recheck);
    }

    /** psi_plist_free: only a list that is not freed yet may be. */
    ghost method Free(l: List)
      requires l in temps
      modifies this`temps
      ensures temps == old(temps) - {l}
    {
      temps := temps - {l};
    }

    /** Frees the lists of the last pass, except those of the source. */
    method FreeLists(check: Lists, src: Lists, ghost others: set<List>)
      requires temps == Temporary(check, src) + others && (check == src || Apart(check)) && others !! Allocated(check)
      modifies this`temps
      ensures temps == others
    {
      for k := 0 to 5
        invariant temps == Temporary(check[k..], src[k..]) + others
      {
        if check[k] != null && check[k] != src[k] {
          Free(check[k]);
        }
      }
    }

    /** A pass, with the lists it leaves allocated besides those it started from. */
    method Pass(valid: Validator, check: Lists, ghost src: Lists, ghost before: seq<Decl>, ghost left: seq<Decl>,
                ghost all: seq<Decl>)
      returns (recheck: Lists, ghost left': seq<Decl>, ghost made: set<List>)
      requires left == Flat(check) && multiset(known) + multiset(left) == multiset(before) + multiset(all)
      modifies this`stack, this`known, this`temps
      ensures var s := State(Elements(old(known)), old(stack));
              State(Elements(known), stack) == Sweep(valid, left, s) && left' == Rest(valid, left, s)
      ensures left' == Flat(recheck) && multiset(known) + multiset(left') == multiset(before) + multiset(all)
      ensures Apart(recheck) && made == Allocated(recheck) == Temporary(recheck, src) && temps == old(temps) + made
      ensures made !! Allocated(check) && (left == [] ==> made == {})
    {
      hide Sweep, Rest, Elements, Temporary;
      recheck := Round(valid, check);
      left', made := Flat(recheck), Allocated(recheck);
      forall l: List | l in recheck ensures l !in src && l !in check {
        assert fresh(l);
      }
      AllTemporary(recheck, src);
    }

    /** Validates what `src` declares, unless its library is missing. */
    method Validate(valid: Validator, src: Source, fileOk: bool)
      returns (ok: bool, ghost remaining: seq<Decl>, ghost rounds: nat, ghost loud: nat)
      requires temps == {} && |Flat(src.lists)| < SIZE_MAX
      modifies this, src`errors
      ensures ok == fileOk && temps == {} && flags == old(flags)
      ensures !ok ==> known == old(known) && src.errors == old(src.errors)
      ensures var all := Flat(src.lists); ok ==>
        && Final(Elements(known), remaining) == Run(valid, all, State(Elements(old(known)), {}), !flags.silent)
        && multiset(known) + multiset(remaining) == multiset(old(known)) + multiset(all)
        && src.errors == old(src.errors) + |remaining|
        && rounds <= |all| + 3
        && loud == if flags.silent then 0 else LoudPassings(valid, all, State(Elements(old(known)), {}))
    {
      hide Sweep, Rest, Run, Elements, RunAhead, LoudAhead, LoudPassings, Passings, Ahead, Temporary, Allocated, Flat;
      remaining, rounds, loud := [], 0, 0;
      if !fileOk {
        ok := false;
        return;
      }
      var checkCount, check, flags, errors := SIZE_MAX, src.lists, this.flags, src.errors;
      stack := {};
      ghost var all, may, s := Flat(check), !flags.silent, State(Elements(known), {});
      Begins(valid, all, s, may);
      AllTemporary(check, check);
      remaining := all;
      this.flags := this.flags.(silent := true);
      while checkCount != 0
        invariant 0 <= checkCount <= SIZE_MAX
        invariant checkCount != 0 ==>
                  && remaining == Flat(check) && temps == Temporary(check, src.lists)
                  && (check == src.lists || Apart(check))
        invariant checkCount == 0 ==> temps == {}
        invariant Flat(src.lists) == all && |remaining| <= |all|
        invariant this.flags.others == flags.others && (this.flags.silent || may)
        invariant Ahead(valid, all, s, may, State(Elements(known), stack), remaining, checkCount,
                  this.flags.silent, loud)
        invariant rounds + Bound(|remaining|, checkCount, may && this.flags.silent) <= |all| + 3
        invariant multiset(known) + multiset(remaining) == multiset(old(known)) + multiset(all)
        invariant if checkCount == SIZE_MAX then src.errors >= errors
                  else src.errors == errors + if checkCount == 0 then |remaining| else checkCount
        decreases Bound(|remaining|, checkCount, may && this.flags.silent)
      {
        var recheck: Lists := *;
        rounds := rounds + 1;
        ghost var others: set<List> := {};
        var countAll := |Flat(check)|;
        if checkCount == countAll {
          BailsOut(valid, all, s, may, State(Elements(known), stack), remaining, checkCount, this.flags.silent, loud);
          if countAll != 0 && this.flags.silent && !flags.silent {
            this.flags := this.flags.(silent := !this.flags.silent);
            checkCount := SIZE_MAX;
            continue;
          }
          checkCount := 0;
        } else {
          GoesOn(valid, all, s, may, State(Elements(known), stack), remaining, checkCount, this.flags.silent, loud);
          checkCount := countAll;
          src.errors := errors + checkCount;
          loud := loud + if this.flags.silent then 0 else 1;
          recheck, remaining, others := Pass(valid, check, src.lists, old(known), remaining, all);
        }
        FreeLists(check, src.lists, others);
        check := recheck;
      }
      Ended(valid, all, s, may, State(Elements(known), stack), remaining, this.flags.silent, loud);
      this.flags := flags;
      ok := true;
    }
  }

  // ----- the loop as a run of passes -----

  /** The result of the loop from here on; after a pass that accepted nothing, `checkCount` is the number of
      declarations left. */
  function RunAhead(valid: Validator, ds: seq<Decl>, s: State, checkCount: nat, may: bool): Final {
    if checkCount == |ds| then (if may then Run(valid, ds, s, false) else Final(s.acc, ds)) else Run(valid, ds, s, may)
  }

  /** The passes still to come that show errors. */
  function LoudAhead(valid: Validator, ds: seq<Decl>, s: State, checkCount: nat, may: bool, silent: bool): nat {
    if !may || checkCount == 0 then 0
    else if silent then (if checkCount == |ds| then Passings(valid, ds, s) else LoudPassings(valid, ds, s))
    else if checkCount == |ds| then 0 else Passings(valid, ds, s)
  }

  function Bound(left: nat, checkCount: nat, may: bool): nat {
    if checkCount == 0 then 0 else left + (if checkCount != left then 1 else 0) + if may then 2 else 0
  }

  ghost predicate Ahead(valid: Validator, all: seq<Decl>, s: State, may: bool, now: State, left: seq<Decl>,
                        checkCount: nat, silent: bool, loud: nat) {
    && (if checkCount == 0 then Final(now.acc, left)
        else RunAhead(valid, left, now, checkCount, may && silent)) == Run(valid, all, s, may)
    && loud + LoudAhead(valid, left, now, checkCount, may, silent) == if may then LoudPassings(valid, all, s) else 0
  }

  /** Those of the lists `check` that are not the source's own. */
  ghost function Temporary(check: seq<List?>, src: seq<List?>): (temps: set<List>)
    requires |check| == |src|
    ensures temps <= Allocated(check)
  {
    if check == [] then {}
    else
      var rest := Temporary(check[1..], src[1..]);
      if check[0] == null || check[0] == src[0] then rest else var l: List := check[0]; {l} + rest
  }

  lemma {:induction false} AllTemporary(check: seq<List?>, src: seq<List?>)
    requires |check| == |src|
    ensures (forall l: List :: l in check ==> l !in src) ==> Temporary(check, src) == Allocated(check)
    ensures check == src ==> Temporary(check, src) == {}
  {
    if check != [] {
      AllTemporary(check[1..], src[1..]);
      assert forall l :: l in check <==> l == check[0] || l in check[1..];
    }
  }

  lemma NothingFlat()
    ensures Flat([]) == []
  {
  }

  lemma FlatLast(ls: seq<List?>)
    requires ls != []
    ensures Flat(ls) == Flat(ls[..|ls| - 1]) + Items(ls[|ls| - 1])
  {
  }

  lemma FlatNext(ls: seq<List?>, k: nat)
    requires k < |ls|
    ensures Flat(ls[..k + 1]) == Flat(ls[..k]) + Items(ls[k])
  {
    assert ls[..k + 1][..k] == ls[..k];
  }

  /** What every list holds, the whole of its part of `Flat` is. */
  lemma {:induction false} FlatHas(ls: seq<List?>, stacked: bool)
    requires forall i, d :: 0 <= i < |ls| && d in Items(ls[i]) ==> Stacked(d.cat) == stacked
    ensures if stacked then AllStacked(Flat(ls)) else NoneStacked(Flat(ls))
  {
    if ls != [] {
      FlatHas(ls[..|ls| - 1], stacked);
      assert forall d :: d in Items(ls[|ls| - 1]) ==> Stacked(d.cat) == stacked;
    }
  }

  lemma {:induction false} FlatSplits(ls: seq<List?>, k: nat)
    requires k <= |ls|
    ensures Flat(ls) == Flat(ls[..k]) + Flat(ls[k..])
  {
    hide Items, Flat;
    var front, back := ls[..k], ls[k..];
    NothingFlat();
    if back == [] {
      assert front == ls;
    } else {
      var n := |ls| - 1;
      FlatSplits(ls[..n], k);
      FlatLast(ls);
      FlatLast(back);
      assert ls[..n][..k] == front && ls[..n][k..] == back[..|back| - 1] && back[|back| - 1] == ls[n];
    }
  }

  /** For the five lists of a source: all of its types, structs and unions are accepted, and of its
      enums and functions exactly those that follow from them and from what was known. */
  lemma AcceptsLeast(valid: Validator, ls: Lists, base: set<Decl>, loud: bool)
    requires Sorted(ls) && Monotone(valid) && !GivesUp(valid, Flat(ls), base, loud)
    ensures LeastClosed(valid, Elements(Flat(ls[3..])), base + Elements(Flat(ls[..3])), Run(valid, Flat(ls),
            State(base, {}), loud).acc)
  {
    FlatHas(ls[..3], true);
    FlatHas(ls[3..], false);
    FlatSplits(ls, 3);
    RunIsLeast(valid, Flat(ls[..3]), Flat(ls[3..]), base, loud);
  }

  /** The five lists of a source as a file. */
  function FileOf(ls: Lists): File
    reads ls
  {
    File(Items(ls[0]), Items(ls[1]), Items(ls[2]), Items(ls[3]), Items(ls[4]))
  }

  /** A pass over the five lists is one over the types, structs and unions and then the others. */
  lemma FlatFile(ls: Lists)
    requires Sorted(ls)
    ensures Kinded(FileOf(ls)) && Flat(ls) == Compound(FileOf(ls)) + Others(FileOf(ls))
  {
    hide Items, Flat, Sorted, Kinded, Compound, Others;
    KindedLists(ls);
    FlatThree(ls);
    FlatNext(ls, 3);
    FlatNext(ls, 4);
    assert ls[..5] == ls;
    Associated(Compound(FileOf(ls)), Items(ls[3]), Items(ls[4]));
    OthersAre(FileOf(ls));
  }

  lemma KindedLists(ls: Lists)
    requires Sorted(ls)
    ensures Kinded(FileOf(ls))
  {
    hide Items;
    assert CATEGORIES == [Types, Structs, Unions, Enums, Decls];
  }

  lemma FlatThree(ls: Lists)
    ensures Flat(ls[..3]) == Compound(FileOf(ls))
  {
    hide Items, Flat;
    NothingFlat();
    assert ls[..0] == [];
    FlatNext(ls, 0);
    FlatNext(ls, 1);
    FlatNext(ls, 2);
    assert [] + Items(ls[0]) == Items(ls[0]);
  }

  lemma OthersAre(f: File)
    ensures Others(f) == f.enums + f.decls
  {
  }

  lemma Associated(a: seq<Decl>, b: seq<Decl>, c: seq<Decl>)
    ensures a + b + c == a + (b + c)
  {
  }

  lemma {:induction false} NothingListed(ls: seq<List?>)
    ensures Flat(ls) == [] ==> forall i :: 0 <= i < |ls| ==> Items(ls[i]) == []
  {
    if ls != [] {
      NothingListed(ls[..|ls| - 1]);
    }
  }

  twostate lemma {:induction false} SameItems(ls: seq<List?>)
    requires forall i :: 0 <= i < |ls| ==> allocated(ls[i]) && Items(ls[i]) == old(Items(ls[i]))
    ensures Flat(ls) == old(Flat(ls))
  {
    if ls != [] {
      SameItems(ls[..|ls| - 1]);
    }
  }

  /** The state of a pass over `done`, begun in `s` with `before` known. */
  ghost predicate PassSoFar(valid: Validator, s: State, done: seq<Decl>, before: seq<Decl>, known: seq<Decl>,
                            stack: set<Decl>, rest: seq<Decl>) {
    && State(Elements(known), stack) == Sweep(valid, done, s) && rest == Rest(valid, done, s)
    && multiset(known) + multiset(rest) == multiset(before) + multiset(done)
  }

  lemma PassBegins(valid: Validator, known: seq<Decl>, stack: set<Decl>)
    ensures PassSoFar(valid, State(Elements(known), stack), [], known, known, stack, [])
  {
  }

  lemma PassAppends(valid: Validator, s: State, a: seq<Decl>, b: seq<Decl>, before: seq<Decl>, known1: seq<Decl>,
                    stack1: set<Decl>, rest1: seq<Decl>, known2: seq<Decl>, stack2: set<Decl>, rest2: seq<Decl>)
    requires PassSoFar(valid, s, a, before, known1, stack1, rest1)
    requires PassSoFar(valid, State(Elements(known1), stack1), b, known1, known2, stack2, rest2)
    ensures PassSoFar(valid, s, a + b, before, known2, stack2, rest1 + rest2)
  {
    hide Sweep, Rest, Elements;
    SweepConcat(valid, a, b, s);
    assert multiset(a + b) == multiset(a) + multiset(b) && multiset(rest1 + rest2) == multiset(rest1) + multiset(rest2);
    Moved(multiset(before), multiset(known1), multiset(known2), multiset(a), multiset(b), multiset(rest1),
        multiset(rest2));
  }

  lemma PassGoesOn(valid: Validator, s: State, done: seq<Decl>, before: seq<Decl>, known: seq<Decl>, stack: set<Decl>,
                   rest: seq<Decl>, d: Decl)
    requires PassSoFar(valid, s, done, before, known, stack, rest)
    ensures var ok := Passes(valid, d, Elements(known), stack);
            PassSoFar(valid, s, done + [d], before, if ok then known + [d]
                                                    else known, StackAfter(d, stack), if ok then rest else rest + [d])
  {
    hide Sweep, Rest, Elements, Passes, StackAfter;
    var ok := Passes(valid, d, Elements(known), stack);
    var known', rest' := if ok then known + [d] else known, if ok then [] else [d];
    OnePass(valid, d, State(Elements(known), stack));
    ElementsLast(known, d);
    assert multiset(known') + multiset(rest') == multiset(known) + multiset([d]);
    PassAppends(valid, s, done, [d], before, known, stack, rest, known', StackAfter(d, stack), rest');
    assert rest + [] == rest;
  }

  lemma Moved(known: multiset<Decl>, known1: multiset<Decl>, known2: multiset<Decl>, done1: multiset<Decl>,
              done2: multiset<Decl>, rest1: multiset<Decl>, rest2: multiset<Decl>)
    requires known1 + rest1 == known + done1 && known2 + rest2 == known1 + done2
    ensures known2 + (rest1 + rest2) == known + (done1 + done2)
  {
    forall d ensures (known2 + (rest1 + rest2))[d] == (known + (done1 + done2))[d] {
      assert (known1 + rest1)[d] == (known + done1)[d] && (known2 + rest2)[d] == (known1 + done2)[d];
    }
  }


  lemma Begins(valid: Validator, all: seq<Decl>, s: State, may: bool)
    requires |all| < SIZE_MAX
    ensures Ahead(valid, all, s, may, s, all, SIZE_MAX, true, 0)
  {
  }

  lemma Ended(valid: Validator, all: seq<Decl>, s: State, may: bool, now: State, left: seq<Decl>, silent: bool,
              loud: nat)
    requires Ahead(valid, all, s, may, now, left, 0, silent, loud)
    ensures Final(now.acc, left) == Run(valid, all, s, may) && loud == if may then LoudPassings(valid, all, s) else 0
  {
  }

  lemma GoesOn(valid: Validator, all: seq<Decl>, s: State, may: bool, now: State, left: seq<Decl>, checkCount: nat,
               silent: bool, loud: nat)
    requires Ahead(valid, all, s, may, now, left, checkCount, silent, loud) && (silent || may)
    requires checkCount != 0 && checkCount != |left|
    ensures Ahead(valid, all, s, may, Sweep(valid, left, now), Rest(valid, left, now), |left|, silent,
            loud + if silent then 0 else 1)
  {
    var now', left' := Sweep(valid, left, now), Rest(valid, left, now);
    PassAhead(valid, left, now, checkCount, may && silent);
    LoudPassAhead(valid, left, now, checkCount, may, silent);
    assert left == [] ==> now' == now && left' == [];
    hide Sweep, Rest, Run, RunAhead, LoudAhead;
  }

  lemma PassAhead(valid: Validator, left: seq<Decl>, now: State, checkCount: nat, may: bool)
    requires checkCount != |left|
    ensures var left', now' := Rest(valid, left, now), Sweep(valid, left, now);
            RunAhead(valid, left, now, checkCount, may) == if left == [] then Final(now.acc, [])
                                                           else RunAhead(valid, left', now', |left|, may)
  {
    var left', now' := Rest(valid, left, now), Sweep(valid, left, now);
    RunUnfold(valid, left, now, may);
    if |left'| == |left| {
      SweepStuck(valid, left, now);
    }
    hide Sweep, Rest, Run;
  }

  lemma LoudPassAhead(valid: Validator, left: seq<Decl>, now: State, checkCount: nat, may: bool, silent: bool)
    requires 0 < checkCount != |left| && (silent || may)
    ensures var left', now' := Rest(valid, left, now), Sweep(valid, left, now);
            LoudAhead(valid, left, now, checkCount, may, silent) == (if silent then 0
                                                                     else 1) + LoudAhead(valid, left', now',
                                                                         |left|, may, silent)
  {
    hide Sweep, Rest;
    var left', now' := Rest(valid, left, now), Sweep(valid, left, now);
    if |left'| == |left| {
      SweepStuck(valid, left, now);
    }
  }

  lemma BailsOut(valid: Validator, all: seq<Decl>, s: State, may: bool, now: State, left: seq<Decl>, checkCount: nat,
                 silent: bool, loud: nat)
    requires Ahead(valid, all, s, may, now, left, checkCount, silent, loud)
    requires 0 < checkCount == |left| < SIZE_MAX
    ensures if silent && may then Ahead(valid, all, s, may, now, left, SIZE_MAX, false, loud)
            else Ahead(valid, all, s, may, now, left, 0, silent, loud)
  {
  }
}
