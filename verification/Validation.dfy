/** Validation of mutually dependent declarations, pass by pass (psi_data_validate). */
module Validation {

  /** The five kinds of declarations, in the order in which a pass checks them. */
  datatype Category = Types | Structs | Unions | Enums | Decls

  datatype Decl = Decl(cat: Category, id: nat)

  /** Whether a declaration holds up, given the declarations it can refer to. */
  type Validator = (Decl, set<Decl>) -> bool

  /** Types, structs and unions are among the known ones while they are checked; once checked they
      are on the type stack, where they stay to the end, and pass every later check. */
  predicate Stacked(cat: Category) {
    cat == Types || cat == Structs || cat == Unions
  }

  function Elements(ds: seq<Decl>): set<Decl> {
    set d | d in ds
  }

  predicate AllStacked(ds: seq<Decl>) {
    forall i :: 0 <= i < |ds| ==> Stacked(ds[i].cat)
  }

  predicate NoneStacked(ds: seq<Decl>) {
    forall i :: 0 <= i < |ds| ==> !Stacked(ds[i].cat)
  }

  /** The outcome of one check, `acc` being the accepted declarations and `stack` the type stack. */
  predicate Passes(valid: Validator, d: Decl, acc: set<Decl>, stack: set<Decl>) {
    if Stacked(d.cat) then d in stack || valid(d, acc + stack + {d}) else valid(d, acc + stack)
  }

  function StackAfter(d: Decl, stack: set<Decl>): set<Decl> {
    if Stacked(d.cat) then stack + {d} else stack
  }

  // ----- one pass -----

  datatype State = State(acc: set<Decl>, stack: set<Decl>)

  function Sweep(valid: Validator, ds: seq<Decl>, s: State): State {
    if ds == [] then s
    else
      var n := |ds| - 1;
      var s1 := Sweep(valid, ds[..n], s);
      State(if Passes(valid, ds[n], s1.acc, s1.stack) then s1.acc + {ds[n]} else s1.acc, StackAfter(ds[n], s1.stack))
  }

  /** What a pass leaves to be checked again. */
  function Rest(valid: Validator, ds: seq<Decl>, s: State): (rest: seq<Decl>)
    ensures |rest| <= |ds|
  {
    if ds == [] then []
    else
      var n := |ds| - 1;
      var s1 := Sweep(valid, ds[..n], s);
      Rest(valid, ds[..n], s) + if Passes(valid, ds[n], s1.acc, s1.stack) then [] else [ds[n]]
  }

  lemma SweepLast(valid: Validator, ds: seq<Decl>, d: Decl, s: State)
    ensures var s1 := Sweep(valid, ds, s);
            && Sweep(valid, ds + [d], s) == State(if Passes(valid, d, s1.acc, s1.stack) then s1.acc + {d}
                                                  else s1.acc, StackAfter(d, s1.stack))
            && Rest(valid, ds + [d], s) == Rest(valid, ds, s) + if Passes(valid, d, s1.acc, s1.stack) then [] else [d]
  {
    assert (ds + [d])[..|ds|] == ds;
  }

  lemma {:induction false} SweepConcat(valid: Validator, a: seq<Decl>, b: seq<Decl>, s: State)
    ensures Sweep(valid, a + b, s) == Sweep(valid, b, Sweep(valid, a, s))
    ensures Rest(valid, a + b, s) == Rest(valid, a, s) + Rest(valid, b, Sweep(valid, a, s))
  {
    if b == [] {
      assert a + b == a;
    } else {
      hide Sweep, Rest, Passes, StackAfter;
      var c, d := b[..|b| - 1], b[|b| - 1];
      assert b == c + [d] && a + b == (a + c) + [d];
      SweepConcat(valid, a, c, s);
      SweepLast(valid, a + c, d, s);
      SweepLast(valid, c, d, Sweep(valid, a, s));
      RestConcat(Rest(valid, a, s), Rest(valid, c, Sweep(valid, a, s)), d);
    }
  }

  lemma RestConcat(a: seq<Decl>, b: seq<Decl>, d: Decl)
    ensures (a + b) + [d] == a + (b + [d]) && (a + b) + [] == a + (b + [])
  {
  }

  /** A pass that leaves as many as it found accepts nothing. */
  lemma {:induction false} SweepStuck(valid: Validator, ds: seq<Decl>, s: State)
    requires |Rest(valid, ds, s)| == |ds|
    ensures Rest(valid, ds, s) == ds && Sweep(valid, ds, s).acc == s.acc
  {
    if ds != [] {
      SweepStuck(valid, ds[..|ds| - 1], s);
    }
  }

  /** A pass keeps or accepts every declaration. */
  lemma {:induction false} SweepSplits(valid: Validator, ds: seq<Decl>, s: State)
    ensures s.acc <= Sweep(valid, ds, s).acc <= s.acc + Elements(ds)
    ensures Elements(Rest(valid, ds, s)) <= Elements(ds)
    ensures Elements(ds) <= Sweep(valid, ds, s).acc + Elements(Rest(valid, ds, s))
    ensures AllStacked(ds) ==> AllStacked(Rest(valid, ds, s))
    ensures NoneStacked(ds) ==> NoneStacked(Rest(valid, ds, s))
  {
    if ds != [] {
      hide Sweep, Rest, Passes, StackAfter, Elements;
      var front, d := ds[..|ds| - 1], ds[|ds| - 1];
      assert ds == front + [d];
      SweepSplits(valid, front, s);
      SweepLast(valid, front, d, s);
      ElementsLast(front, d);
      ElementsLast(Rest(valid, front, s), d);
      assert Rest(valid, front, s) + [] == Rest(valid, front, s);
    }
  }

  lemma ElementsLast(ds: seq<Decl>, d: Decl)
    ensures Elements(ds + [d]) == Elements(ds) + {d}
  {
  }

  lemma {:induction false} SweepStacks(valid: Validator, ds: seq<Decl>, s: State)
    ensures AllStacked(ds) ==> Sweep(valid, ds, s).stack == s.stack + Elements(ds)
    ensures NoneStacked(ds) ==> Sweep(valid, ds, s).stack == s.stack
  {
    if ds != [] {
      var n := |ds| - 1;
      SweepStacks(valid, ds[..n], s);
      assert Elements(ds) == Elements(ds[..n]) + {ds[n]};
    }
  }

  /** What was checked before passes the next time, valid or not. */
  lemma {:induction false} SecondTimePasses(valid: Validator, ds: seq<Decl>, s: State)
    requires AllStacked(ds) && Elements(ds) <= s.stack
    ensures Sweep(valid, ds, s).acc == s.acc + Elements(ds) && Rest(valid, ds, s) == []
  {
    if ds != [] {
      var n := |ds| - 1;
      assert Elements(ds) == Elements(ds[..n]) + {ds[n]};
      SecondTimePasses(valid, ds[..n], s);
      assert AllStacked(ds[..n] + [ds[n]]);
      SweepStacks(valid, ds[..n], s);
    }
  }

  // ----- all passes -----

  /** The declarations accepted and those given up. */
  datatype Final = Final(acc: set<Decl>, remaining: seq<Decl>)

  /** The loop: passes go on while they accept something; after one that does not, a last one is
      made if errors may be shown (`loud`), after which they may go on as well. */
  function Run(valid: Validator, ds: seq<Decl>, s: State, loud: bool): (r: Final)
    ensures |r.remaining| <= |ds|
    decreases |ds|, loud
  {
    var s', rest := Sweep(valid, ds, s), Rest(valid, ds, s);
    if ds == [] then Final(s.acc, [])
    else if |rest| < |ds| then Run(valid, rest, s', loud)
    else if loud then Run(valid, ds, s', false)
    else Final(s.acc, ds)
  }

  // ----- the reference: sets closed under validation -----

  ghost predicate Monotone(valid: Validator) {
    forall d, a, b :: a <= b && valid(d, a) ==> valid(d, b)
  }

  /** A declaration as such, without a type stack. */
  predicate Holds(valid: Validator, d: Decl, acc: set<Decl>) {
    valid(d, if Stacked(d.cat) then acc + {d} else acc)
  }

  ghost predicate Closed(valid: Validator, ds: set<Decl>, acc: set<Decl>) {
    forall d :: d in ds && Holds(valid, d, acc) ==> d in acc
  }

  ghost predicate LeastClosed(valid: Validator, ds: set<Decl>, base: set<Decl>, acc: set<Decl>) {
    && base <= acc && Closed(valid, ds, acc)
    && forall s :: base <= s && Closed(valid, ds, s) ==> acc <= s
  }

  lemma LeastClosedUnique(valid: Validator, ds: set<Decl>, base: set<Decl>, a: set<Decl>, b: set<Decl>)
    requires LeastClosed(valid, ds, base, a) && LeastClosed(valid, ds, base, b)
    ensures a == b
  {
    assert a <= b && b <= a;
  }

  /** A pass stays within every closed set that holds the stacked declarations. */
  lemma {:induction false} SweepWithin(valid: Validator, ds: seq<Decl>, s: State, es: set<Decl>, c: set<Decl>)
    requires Monotone(valid) && Closed(valid, es, c) && s.acc <= c && s.stack <= c
    requires forall d :: d in ds ==> if Stacked(d.cat) then d in c else d in es
    ensures Sweep(valid, ds, s).acc <= c && Sweep(valid, ds, s).stack <= c
  {
    if ds != [] {
      var n := |ds| - 1;
      assert forall d :: d in ds[..n] ==> d in ds;
      SweepWithin(valid, ds[..n], s, es, c);
      assert ds[n] in ds;
    }
  }

  lemma {:induction false} RunWithin(valid: Validator, ds: seq<Decl>, s: State, loud: bool, es: set<Decl>, c: set<Decl>)
    requires Monotone(valid) && Closed(valid, es, c) && s.acc <= c && s.stack <= c
    requires forall d :: d in ds ==> if Stacked(d.cat) then d in c else d in es
    ensures Run(valid, ds, s, loud).acc <= c
    decreases |ds|, loud
  {
    var s', rest := Sweep(valid, ds, s), Rest(valid, ds, s);
    SweepWithin(valid, ds, s, es, c);
    SweepSplits(valid, ds, s);
    if ds == [] {
    } else if |rest| < |ds| {
      assert forall d :: d in rest ==> d in Elements(rest);
      RunWithin(valid, rest, s', loud, es, c);
    } else if loud {
      RunWithin(valid, ds, s', false, es, c);
    }
  }

  /** A pass over what does not touch the stack fails each declaration it keeps, whatever it accepted so far. */
  lemma {:induction false} StuckFails(valid: Validator, ds: seq<Decl>, s: State)
    requires |Rest(valid, ds, s)| == |ds| && NoneStacked(ds)
    ensures forall d :: d in ds ==> !valid(d, s.acc + s.stack)
  {
    if ds != [] {
      var n := |ds| - 1;
      StuckFails(valid, ds[..n], s);
      SweepStuck(valid, ds[..n], s);
      SweepStacks(valid, ds[..n], s);
      assert NoneStacked(ds[..n] + [ds[n]]);
    }
  }

  /** The lists of one call: `ts` the types, structs and unions, `es` the enums and functions. */
  ghost predicate Split(ds: seq<Decl>, ts: seq<Decl>, es: seq<Decl>) {
    ds == ts + es && AllStacked(ts) && NoneStacked(es)
  }

  /** A pass once every type, struct and union it finds is on the stack. */
  lemma LaterSweep(valid: Validator, ts: seq<Decl>, es: seq<Decl>, s: State)
    requires AllStacked(ts) && NoneStacked(es) && Elements(ts) <= s.stack
    ensures var s1 := State(s.acc + Elements(ts), s.stack);
            && Sweep(valid, ts + es, s) == Sweep(valid, es, s1) && Sweep(valid, es, s1).stack == s.stack
            && Rest(valid, ts + es, s) == Rest(valid, es, s1)
  {
    hide Sweep, Rest;
    SweepConcat(valid, ts, es, s);
    SecondTimePasses(valid, ts, s);
    SweepStacks(valid, ts, s);
    SweepStacks(valid, es, State(s.acc + Elements(ts), s.stack));
    assert s.stack + Elements(ts) == s.stack;
    assert [] + Rest(valid, es, Sweep(valid, ts, s)) == Rest(valid, es, Sweep(valid, ts, s));
  }

  /** Any pass splits into that over the stacked declarations and that over the others. */
  lemma FirstSweep(valid: Validator, ts: seq<Decl>, es: seq<Decl>, s: State)
    returns (restTs: seq<Decl>, restEs: seq<Decl>)
    requires AllStacked(ts) && NoneStacked(es)
    ensures Rest(valid, ts + es, s) == restTs + restEs && AllStacked(restTs) && NoneStacked(restEs)
    ensures var s' := Sweep(valid, ts + es, s);
            && s'.stack == s.stack + Elements(ts) && Elements(restTs) <= Elements(ts)
            && Elements(restEs) <= Elements(es)
            && Elements(ts) + Elements(es) <= s'.acc + Elements(restTs) + Elements(restEs) && s.acc <= s'.acc
  {
    hide Sweep, Rest, Elements;
    var s1 := Sweep(valid, ts, s);
    restTs, restEs := Rest(valid, ts, s), Rest(valid, es, s1);
    SweepConcat(valid, ts, es, s);
    SweepStacks(valid, ts, s);
    SweepStacks(valid, es, s1);
    SweepSplits(valid, ts, s);
    SweepSplits(valid, es, s1);
  }

  lemma RunUnfold(valid: Validator, ds: seq<Decl>, s: State, loud: bool)
    ensures Run(valid, ds, s, loud) ==
            if |Rest(valid, ds, s)| < |ds| then Run(valid, Rest(valid, ds, s), Sweep(valid, ds, s), loud)
            else if ds != [] && loud then Run(valid, ds, Sweep(valid, ds, s), false)
            else Final(s.acc, ds)
  {
  }

  ghost predicate LaterEnd(valid: Validator, es: seq<Decl>, stack: set<Decl>, r: Final) {
    && Elements(es) <= r.acc + Elements(r.remaining) && Elements(r.remaining) <= Elements(es)
    && forall d :: d in r.remaining ==> !Stacked(d.cat) && !valid(d, r.acc + stack)
  }

  /** From the second pass on, types, structs and unions are accepted at once; of the others, what
      remains fails at the end. */
  lemma {:induction false} RunLater(valid: Validator, ts: seq<Decl>, es: seq<Decl>, s: State, loud: bool)
    requires AllStacked(ts) && NoneStacked(es) && Elements(ts) <= s.stack
    ensures var r := Run(valid, ts + es, s, loud);
            s.acc + Elements(ts) <= r.acc && LaterEnd(valid, es, s.stack, r)
    decreases |ts| + |es|, loud
  {
    hide Sweep, Rest, Run, Elements;
    LaterSweep(valid, ts, es, s);
    var s1 := State(s.acc + Elements(ts), s.stack);
    var s', rest := Sweep(valid, es, s1), Rest(valid, es, s1);
    SweepSplits(valid, es, s1);
    RunUnfold(valid, ts + es, s, loud);
    NothingFirst(rest);
    NothingFirst(es);
    if |rest| < |ts + es| {
      RunLater(valid, [], rest, s', loud);
    } else {
      assert |rest| <= |es|;
      assert ts == [] && s1 == s;
      StuckFails(valid, es, s1);
      SweepStuck(valid, es, s1);
      if loud && es != [] {
        RunLater(valid, [], es, s', false);
      }
      StuckEnd(valid, es, s);
    }
  }

  lemma NothingFirst(es: seq<Decl>)
    ensures var none: seq<Decl> := []; none + es == es && Elements(none) == {} && AllStacked(none)
  {
  }

  lemma StuckEnd(valid: Validator, es: seq<Decl>, s: State)
    requires NoneStacked(es) && forall d :: d in es ==> !valid(d, s.acc + s.stack)
    ensures LaterEnd(valid, es, s.stack, Final(s.acc, es))
  {
  }

  /** Whether the run gives up after its first pass, having accepted nothing and without showing errors. */
  predicate GivesUp(valid: Validator, ds: seq<Decl>, base: set<Decl>, loud: bool) {
    ds != [] && !loud && |Rest(valid, ds, State(base, {}))| == |ds|
  }

  /** A run that does not give up accepts every type, struct and union, and what remains fails at the end. */
  lemma RunAccepts(valid: Validator, ts: seq<Decl>, es: seq<Decl>, base: set<Decl>, loud: bool)
    requires AllStacked(ts) && NoneStacked(es) && !GivesUp(valid, ts + es, base, loud)
    ensures var r := Run(valid, ts + es, State(base, {}), loud);
            && base + Elements(ts) <= r.acc
            && Elements(es) <= r.acc + Elements(r.remaining) && Elements(r.remaining) <= Elements(es)
            && forall d :: d in r.remaining ==> !Stacked(d.cat) && !valid(d, r.acc)
  {
    var ds, s := ts + es, State(base, {});
    if ds == [] {
      assert ts == [] && es == [];
      return;
    }
    hide Sweep, Rest, Run, Elements;
    var s', rest := Sweep(valid, ds, s), Rest(valid, ds, s);
    var restTs, restEs := FirstSweep(valid, ts, es, s);
    RunUnfold(valid, ds, s, loud);
    var r := Run(valid, ds, s, loud);
    if |rest| < |ds| {
      RunLater(valid, restTs, restEs, s', loud);
    } else {
      SweepStuck(valid, ds, s);
      RunLater(valid, ts, es, s', false);
    }
    assert r.acc + s'.stack == r.acc;
  }

  /** What a run accepts, if more known declarations never make a valid one invalid: all types, structs
      and unions, and of the others exactly what follows from them. */
  lemma RunIsLeast(valid: Validator, ts: seq<Decl>, es: seq<Decl>, base: set<Decl>, loud: bool)
    requires Monotone(valid) && AllStacked(ts) && NoneStacked(es) && !GivesUp(valid, ts + es, base, loud)
    ensures LeastClosed(valid, Elements(es), base + Elements(ts), Run(valid, ts + es, State(base, {}), loud).acc)
  {
    var ds, r := ts + es, Run(valid, ts + es, State(base, {}), loud);
    RunAccepts(valid, ts, es, base, loud);
    forall d | d in Elements(es) && Holds(valid, d, r.acc) ensures d in r.acc {
      assert !Stacked(d.cat);
      assert d in r.acc + Elements(r.remaining);
    }
    forall c | base + Elements(ts) <= c && Closed(valid, Elements(es), c) ensures r.acc <= c {
      forall d | d in ds ensures if Stacked(d.cat) then d in c else d in Elements(es) {
        assert d in ts || d in es;
        assert d in ts ==> Stacked(d.cat) && d in Elements(ts);
        assert d in es ==> !Stacked(d.cat);
      }
      RunWithin(valid, ds, State(base, {}), loud, Elements(es), c);
    }
  }

  /** The order of declarations does not matter. */
  lemma OrderDoesNotMatter(valid: Validator, ts1: seq<Decl>, es1: seq<Decl>, ts2: seq<Decl>, es2: seq<Decl>,
                           base: set<Decl>)
    requires Monotone(valid) && AllStacked(ts1) && NoneStacked(es1) && AllStacked(ts2) && NoneStacked(es2)
    requires Elements(ts1) == Elements(ts2) && Elements(es1) == Elements(es2)
    ensures Run(valid, ts1 + es1, State(base, {}), true).acc == Run(valid, ts2 + es2, State(base, {}), true).acc
  {
    RunIsLeast(valid, ts1, es1, base, true);
    RunIsLeast(valid, ts2, es2, base, true);
    LeastClosedUnique(valid, Elements(es1), base + Elements(ts1),
                      Run(valid, ts1 + es1, State(base, {}), true).acc, Run(valid, ts2 + es2, State(base, {}),
                          true).acc);
  }

  /** A run accepts the least closed set, no more, exactly if that set has every type, struct and
      union: an invalid one is accepted as well. */
  lemma LeastExactly(valid: Validator, ts: seq<Decl>, es: seq<Decl>, base: set<Decl>, loud: bool, least: set<Decl>)
    requires Monotone(valid) && AllStacked(ts) && NoneStacked(es) && !GivesUp(valid, ts + es, base, loud)
    requires LeastClosed(valid, Elements(ts + es), base, least)
    ensures Run(valid, ts + es, State(base, {}), loud).acc == least <==> Elements(ts) <= least
  {
    var r := Run(valid, ts + es, State(base, {}), loud);
    RunAccepts(valid, ts, es, base, loud);
    RunIsLeast(valid, ts, es, base, loud);
    if Elements(ts) <= least {
      assert Elements(es) <= Elements(ts + es);
      assert Closed(valid, Elements(es), least);
      assert r.acc <= least;
      assert Closed(valid, Elements(ts + es), r.acc) by {
        forall d | d in Elements(ts + es) && Holds(valid, d, r.acc) ensures d in r.acc {
          assert d in Elements(ts) || d in Elements(es);
        }
      }
    }
  }

  /** A run that gives up accepts nothing, and nothing follows from what was known before. */
  lemma GivingUpIsLeast(valid: Validator, ds: seq<Decl>, base: set<Decl>)
    requires Monotone(valid) && GivesUp(valid, ds, base, false)
    ensures Run(valid, ds, State(base, {}), false) == Final(base, ds)
    ensures LeastClosed(valid, Elements(ds), base, base)
  {
    var s := State(base, {});
    SweepStuck(valid, ds, s);
    FirstPassFails(valid, ds, s);
  }

  lemma FailsBefore(valid: Validator, d: Decl, s: State, s1: State)
    requires Monotone(valid) && !Passes(valid, d, s1.acc, s1.stack) && s1.acc == s.acc
    ensures !Holds(valid, d, s.acc)
  {
    assert s.acc <= s1.acc + s1.stack && s.acc + {d} <= s1.acc + s1.stack + {d};
  }

  lemma {:induction false} FirstPassFails(valid: Validator, ds: seq<Decl>, s: State)
    requires Monotone(valid) && |Rest(valid, ds, s)| == |ds|
    ensures forall d :: d in ds ==> !Holds(valid, d, s.acc)
  {
    if ds != [] {
      hide Sweep, Rest;
      var front, d := ds[..|ds| - 1], ds[|ds| - 1];
      assert ds == front + [d];
      SweepLast(valid, front, d, s);
      FirstPassFails(valid, front, s);
      SweepStuck(valid, front, s);
      var s1 := Sweep(valid, front, s);
      assert !Passes(valid, d, s1.acc, s1.stack);
      FailsBefore(valid, d, s, s1);
    }
  }

  /** Two orders of the same declarations, types, structs and unions first. */
  ghost predicate Reordered(ts1: seq<Decl>, es1: seq<Decl>, ts2: seq<Decl>, es2: seq<Decl>) {
    && AllStacked(ts1) && NoneStacked(es1) && AllStacked(ts2) && NoneStacked(es2)
    && Elements(ts1) == Elements(ts2) && Elements(es1) == Elements(es2)
  }

  /** Where errors may not be shown, two orders give the same exactly if the first pass accepts nothing
      in both or in neither, or there is no type, struct or union that was not known before. */
  lemma SilentOrderExactly(valid: Validator, ts1: seq<Decl>, es1: seq<Decl>, ts2: seq<Decl>, es2: seq<Decl>,
                           base: set<Decl>)
    requires Monotone(valid) && Reordered(ts1, es1, ts2, es2)
    ensures Run(valid, ts1 + es1, State(base, {}), false).acc == Run(valid, ts2 + es2, State(base, {}), false).acc
            <==> ((GivesUp(valid, ts1 + es1, base, false) <==> GivesUp(valid, ts2 + es2, base, false))
                  || Elements(ts1) <= base)
  {
    hide Run, Elements, GivesUp, LeastClosed, Monotone;
    SilentAccepts(valid, ts1, es1, base);
    SilentAccepts(valid, ts2, es2, base);
    if GivesUp(valid, ts1 + es1, base, false) != GivesUp(valid, ts2 + es2, base, false) && Elements(ts1) <= base {
      assert base + Elements(ts1) == base;
    }
    forall a, b | LeastClosed(valid, Elements(es1), base + Elements(ts1), a)
        && LeastClosed(valid, Elements(es1), base + Elements(ts1), b) ensures a == b {
      LeastClosedUnique(valid, Elements(es1), base + Elements(ts1), a, b);
    }
  }

  /** A silent run accepts nothing if it gives up, all types, structs and unions and what follows otherwise. */
  lemma SilentAccepts(valid: Validator, ts: seq<Decl>, es: seq<Decl>, base: set<Decl>)
    requires Monotone(valid) && AllStacked(ts) && NoneStacked(es)
    ensures var acc := Run(valid, ts + es, State(base, {}), false).acc;
            if GivesUp(valid, ts + es, base, false) then acc == base
                && (Elements(ts) <= base ==> LeastClosed(valid, Elements(es), base + Elements(ts), base))
            else base + Elements(ts) <= acc && LeastClosed(valid, Elements(es), base + Elements(ts), acc)
  {
    if GivesUp(valid, ts + es, base, false) {
      GivingUpIsLeast(valid, ts + es, base);
      if Elements(ts) <= base {
        assert base + Elements(ts) == base;
        assert Elements(ts + es) == Elements(ts) + Elements(es);
      }
    } else {
      RunIsLeast(valid, ts, es, base, false);
    }
  }

  lemma PermutedElements(a: seq<Decl>, b: seq<Decl>)
    requires multiset(a) == multiset(b)
    ensures Elements(a) == Elements(b) && |a| == |b|
    ensures (AllStacked(a) ==> AllStacked(b)) && (NoneStacked(a) ==> NoneStacked(b))
  {
    assert |multiset(a)| == |multiset(b)|;
    forall d ensures d in a <==> d in b {
      assert d in multiset(a) <==> d in multiset(b);
    }
    KindsOf(a);
    KindsOf(b);
  }

  lemma KindsOf(ds: seq<Decl>)
    ensures AllStacked(ds) <==> forall d :: d in ds ==> Stacked(d.cat)
    ensures NoneStacked(ds) <==> forall d :: d in ds ==> !Stacked(d.cat)
  {
  }

  // ----- giving up -----

  /** Nothing passes in the first pass over types, structs and unions: none repeats, and each is invalid
      with those up to it. */
  ghost predicate FailsInTurn(valid: Validator, ts: seq<Decl>, base: set<Decl>) {
    ts == [] || var front, d := ts[..|ts| - 1], ts[|ts| - 1];
      FailsInTurn(valid, front, base) && d !in Elements(front) && !valid(d, base + Elements(ts))
  }

  ghost predicate NoneValid(valid: Validator, ds: seq<Decl>, known: set<Decl>) {
    forall d :: d in ds ==> !valid(d, known)
  }

  lemma {:induction false} StuckStacked(valid: Validator, ts: seq<Decl>, base: set<Decl>)
    requires AllStacked(ts)
    ensures |Rest(valid, ts, State(base, {}))| == |ts| <==> FailsInTurn(valid, ts, base)
  {
    if ts != [] {
      hide Sweep, Rest, Elements, FailsInTurn, Passes, Stacked;
      var front, d, s := ts[..|ts| - 1], ts[|ts| - 1], State(base, {});
      assert ts == front + [d];
      StuckStacked(valid, front, base);
      SweepLast(valid, front, d, s);
      FailsLast(valid, front, d, base);
      if FailsInTurn(valid, front, base) {
        SweepStuck(valid, front, s);
        SweepStacks(valid, front, s);
        PassesNext(valid, front, d, base);
      }
    }
  }

  lemma PassesNext(valid: Validator, front: seq<Decl>, d: Decl, base: set<Decl>)
    requires Stacked(d.cat)
    ensures Passes(valid, d, base, {} + Elements(front))
            <==> d in Elements(front) || valid(d, base + Elements(front + [d]))
  {
    ElementsLast(front, d);
    assert base + ({} + Elements(front)) + {d} == base + Elements(front + [d]);
  }

  lemma FailsLast(valid: Validator, front: seq<Decl>, d: Decl, base: set<Decl>)
    ensures FailsInTurn(valid, front + [d], base)
            <==> FailsInTurn(valid, front, base) && d !in Elements(front) && !valid(d, base + Elements(front + [d]))
  {
    assert (front + [d])[..|front|] == front;
  }

  lemma {:induction false} StuckOthers(valid: Validator, es: seq<Decl>, s: State)
    requires NoneStacked(es)
    ensures |Rest(valid, es, s)| == |es| <==> NoneValid(valid, es, s.acc + s.stack)
  {
    if es != [] {
      var front, d := es[..|es| - 1], es[|es| - 1];
      assert es == front + [d];
      StuckOthers(valid, front, s);
      SweepLast(valid, front, d, s);
      SweepStacks(valid, front, s);
      hide Sweep, Rest;
      if |Rest(valid, front, s)| == |front| {
        SweepStuck(valid, front, s);
      }
    }
  }

  /** When the first pass accepts nothing. */
  lemma GivesUpIf(valid: Validator, ts: seq<Decl>, es: seq<Decl>, base: set<Decl>)
    requires AllStacked(ts) && NoneStacked(es)
    ensures GivesUp(valid, ts + es, base, false)
            <==> ts + es != [] && FailsInTurn(valid, ts, base) && NoneValid(valid, es, base + Elements(ts))
  {
    hide Sweep, Rest, Elements, FailsInTurn, NoneValid;
    var s := State(base, {});
    SweepConcat(valid, ts, es, s);
    StuckStacked(valid, ts, base);
    SweepStacks(valid, ts, s);
    StuckOthers(valid, es, Sweep(valid, ts, s));
    if |Rest(valid, ts, s)| == |ts| {
      SweepStuck(valid, ts, s);
      assert base + ({} + Elements(ts)) == base + Elements(ts);
    }
  }

  /** Some of `all`, each valid with no more than all of them. */
  ghost predicate Core(valid: Validator, all: set<Decl>, base: set<Decl>, some: set<Decl>) {
    some != {} && some <= all && forall d :: d in some ==> valid(d, base + some)
  }

  predicate Repeats(ds: seq<Decl>) {
    exists d :: d in ds && multiset(ds)[d] > 1
  }

  /** A core is accepted in every order: the last of it passes. */
  lemma {:induction false} CorePasses(valid: Validator, ts: seq<Decl>, base: set<Decl>, some: set<Decl>)
    requires Monotone(valid) && Core(valid, Elements(ts), base, some)
    ensures !FailsInTurn(valid, ts, base)
  {
    var front, d := ts[..|ts| - 1], ts[|ts| - 1];
    assert ts == front + [d];
    ElementsLast(front, d);
    if d in some {
      assert base + some <= base + Elements(ts) && valid(d, base + some);
    } else {
      CorePasses(valid, front, base, some);
    }
  }

  /** Without a core there is an order that gives up: what is invalid with all of them goes last. */
  lemma {:induction false} OrderThatFails(valid: Validator, ts: seq<Decl>, base: set<Decl>) returns (order: seq<Decl>)
    requires !Repeats(ts) && !exists some :: Core(valid, Elements(ts), base, some)
    ensures multiset(order) == multiset(ts) && FailsInTurn(valid, order, base)
    decreases |ts|
  {
    if ts == [] {
      return [];
    }
    assert ts[0] in Elements(ts) && !Core(valid, Elements(ts), base, Elements(ts));
    var k :| 0 <= k < |ts| && !valid(ts[k], base + Elements(ts));
    var d, rest := ts[k], ts[..k] + ts[k + 1..];
    assert ts == ts[..k] + [d] + ts[k + 1..];
    WithoutOne(ts, k);
    forall some | Core(valid, Elements(rest), base, some) ensures Core(valid, Elements(ts), base, some) {
    }
    order := OrderThatFails(valid, rest, base);
    PermutedElements(order, rest);
    FailsLast(valid, order, d, base);
    PermutedElements(order + [d], ts);
    order := order + [d];
  }

  lemma WithoutOne(ts: seq<Decl>, k: nat)
    requires k < |ts| && !Repeats(ts)
    ensures var rest := ts[..k] + ts[k + 1..];
            && !Repeats(rest) && ts[k] !in Elements(rest) && Elements(rest) <= Elements(ts)
            && multiset(rest + [ts[k]]) == multiset(ts)
  {
    var rest := ts[..k] + ts[k + 1..];
    assert ts == ts[..k] + [ts[k]] + ts[k + 1..];
    assert multiset(ts) == multiset(rest) + multiset{ts[k]};
    assert multiset(rest)[ts[k]] + 1 == multiset(ts)[ts[k]];
    forall d | d in rest ensures multiset(rest)[d] <= 1 && d in ts {
      assert multiset(rest)[d] <= multiset(ts)[d];
    }
    assert ts[k] in rest ==> multiset(rest)[ts[k]] >= 1;
  }

  lemma {:induction false} RepeatsPass(valid: Validator, ts: seq<Decl>, base: set<Decl>)
    requires Repeats(ts)
    ensures !FailsInTurn(valid, ts, base)
  {
    var d :| d in ts && multiset(ts)[d] > 1;
    var front, last := ts[..|ts| - 1], ts[|ts| - 1];
    assert ts == front + [last];
    assert multiset(ts) == multiset(front) + multiset{last};
    if multiset(front)[d] > 1 {
      RepeatsPass(valid, front, base);
    } else {
      assert d == last && d in multiset(front);
    }
  }

  lemma {:induction false} InvalidWithAll(valid: Validator, ts: seq<Decl>, base: set<Decl>, known: set<Decl>)
    requires Monotone(valid) && !Repeats(ts) && NoneValid(valid, ts, known) && base + Elements(ts) <= known
    ensures FailsInTurn(valid, ts, base)
  {
    if ts != [] {
      var front, d := ts[..|ts| - 1], ts[|ts| - 1];
      assert ts == front + [d];
      ElementsLast(front, d);
      assert multiset(ts) == multiset(front) + multiset{d};
      assert forall e :: e in front ==> e in ts;
      assert d in front ==> multiset(ts)[d] > 1;
      InvalidWithAll(valid, front, base, known);
    }
  }

  // ----- the orders of one list -----

  /** In every order something passes: what is listed twice, or the last of a core. */
  ghost predicate SomePass(valid: Validator, ds: seq<Decl>, base: set<Decl>) {
    Repeats(ds) || exists some :: Core(valid, Elements(ds), base, some)
  }

  /** In no order anything passes. */
  ghost predicate NonePass(valid: Validator, ds: seq<Decl>, base: set<Decl>) {
    !Repeats(ds) && NoneValid(valid, ds, base + Elements(ds))
  }

  lemma SameRepeats(a: seq<Decl>, b: seq<Decl>)
    requires multiset(a) == multiset(b)
    ensures Repeats(a) <==> Repeats(b)
  {
    assert forall d :: d in a <==> d in multiset(a);
    assert forall d :: d in b <==> d in multiset(b);
  }

  lemma SameValid(valid: Validator, ds: seq<Decl>, ds': seq<Decl>, known: set<Decl>)
    requires multiset(ds) == multiset(ds')
    ensures NoneValid(valid, ds, known) <==> NoneValid(valid, ds', known)
  {
    assert forall d :: d in ds <==> d in multiset(ds);
    assert forall d :: d in ds' <==> d in multiset(ds');
  }

  lemma OrdersOf(valid: Validator, ds: seq<Decl>, ds': seq<Decl>, base: set<Decl>)
    requires Monotone(valid) && multiset(ds) == multiset(ds')
    ensures SomePass(valid, ds, base) ==> !FailsInTurn(valid, ds', base)
    ensures NonePass(valid, ds, base) ==> FailsInTurn(valid, ds', base)
  {
    hide Elements, Monotone, FailsInTurn, Core, Repeats, NoneValid;
    PermutedElements(ds, ds');
    SameRepeats(ds, ds');
    SameValid(valid, ds, ds', base + Elements(ds));
    if Repeats(ds) {
      RepeatsPass(valid, ds', base);
    } else if some :| Core(valid, Elements(ds), base, some) {
      CorePasses(valid, ds', base, some);
    }
    if NonePass(valid, ds, base) {
      InvalidWithAll(valid, ds', base, base + Elements(ds));
    }
  }

  lemma OrderThatPasses(valid: Validator, ds: seq<Decl>, base: set<Decl>) returns (order: seq<Decl>)
    requires !NonePass(valid, ds, base)
    ensures multiset(order) == multiset(ds) && !FailsInTurn(valid, order, base)
  {
    hide Elements, FailsInTurn;
    if Repeats(ds) {
      RepeatsPass(valid, ds, base);
      return ds;
    }
    var k :| 0 <= k < |ds| && valid(ds[k], base + Elements(ds));
    var d, rest := ds[k], ds[..k] + ds[k + 1..];
    WithoutOne(ds, k);
    order := rest + [d];
    PermutedElements(order, ds);
    FailsLast(valid, rest, d, base);
  }

  // ----- the orders of a file -----

  /** What a file declares, one list per kind; a pass goes through them in this order. */
  datatype File = File(types: seq<Decl>, structs: seq<Decl>, unions: seq<Decl>, enums: seq<Decl>, decls: seq<Decl>)

  predicate Kinded(f: File) {
    && (forall d :: d in f.types ==> d.cat == Types) && (forall d :: d in f.structs ==> d.cat == Structs)
    && (forall d :: d in f.unions ==> d.cat == Unions) && (forall d :: d in f.enums ==> d.cat == Enums)
    && (forall d :: d in f.decls ==> d.cat == Decls)
  }

  function Compound(f: File): seq<Decl> {
    f.types + f.structs + f.unions
  }

  function Others(f: File): seq<Decl> {
    f.enums + f.decls
  }

  /** The same declarations of each kind, each as often, in another order. */
  ghost predicate Shuffled(f: File, g: File) {
    && multiset(f.types) == multiset(g.types) && multiset(f.structs) == multiset(g.structs)
    && multiset(f.unions) == multiset(g.unions)
    && multiset(f.enums) == multiset(g.enums) && multiset(f.decls) == multiset(g.decls)
  }

  function WithTypes(f: File, base: set<Decl>): set<Decl> {
    base + Elements(f.types)
  }

  function WithStructs(f: File, base: set<Decl>): set<Decl> {
    WithTypes(f, base) + Elements(f.structs)
  }

  function WithUnions(f: File, base: set<Decl>): set<Decl> {
    WithStructs(f, base) + Elements(f.unions)
  }

  /** Every order of the lists has something pass in the first pass. */
  ghost predicate NeverGivesUp(valid: Validator, f: File, base: set<Decl>) {
    || SomePass(valid, f.types, base)
    || SomePass(valid, f.structs, WithTypes(f, base))
    || SomePass(valid, f.unions, WithStructs(f, base))
    || !NoneValid(valid, Others(f), WithUnions(f, base))
  }

  /** No order has. */
  ghost predicate AlwaysGivesUp(valid: Validator, f: File, base: set<Decl>) {
    && NonePass(valid, f.types, base)
    && NonePass(valid, f.structs, WithTypes(f, base))
    && NonePass(valid, f.unions, WithStructs(f, base))
    && NoneValid(valid, Others(f), WithUnions(f, base))
  }

  ghost predicate FailsList(valid: Validator, f: File, base: set<Decl>) {
    && FailsInTurn(valid, f.types, base)
    && FailsInTurn(valid, f.structs, WithTypes(f, base))
    && FailsInTurn(valid, f.unions, WithStructs(f, base))
    && NoneValid(valid, Others(f), WithUnions(f, base))
  }

  lemma {:induction false} FailsConcat(valid: Validator, a: seq<Decl>, b: seq<Decl>, base: set<Decl>)
    requires Elements(a) !! Elements(b)
    ensures FailsInTurn(valid, a + b, base)
            <==> FailsInTurn(valid, a, base) && FailsInTurn(valid, b, base + Elements(a))
  {
    if b == [] {
      assert a + b == a;
    } else {
      hide FailsInTurn;
      var front, d := b[..|b| - 1], b[|b| - 1];
      assert b == front + [d] && a + b == (a + front) + [d];
      ElementsLast(front, d);
      FailsConcat(valid, a, front, base);
      FailsLast(valid, a + front, d, base);
      FailsLast(valid, front, d, base + Elements(a));
      ElementsBoth(a, front);
      ElementsBoth(a, b);
      assert base + Elements(a + b) == base + Elements(a) + Elements(b);
    }
  }

  lemma ElementsBoth(a: seq<Decl>, b: seq<Decl>)
    ensures Elements(a + b) == Elements(a) + Elements(b)
  {
  }

  lemma KindedFile(f: File)
    requires Kinded(f)
    ensures AllStacked(Compound(f)) && NoneStacked(Others(f))
    ensures Elements(f.types) !! Elements(f.structs) && Elements(f.types + f.structs) !! Elements(f.unions)
  {
    KindsOf(Compound(f));
    KindsOf(Others(f));
  }

  lemma KnownFile(f: File, base: set<Decl>)
    ensures base + Elements(f.types + f.structs) == WithStructs(f, base)
    ensures base + Elements(Compound(f)) == WithUnions(f, base)
  {
    ElementsBoth(f.types, f.structs);
    ElementsBoth(f.types + f.structs, f.unions);
  }

  /** A file is given up exactly if each of its lists fails. */
  lemma FileGivesUp(valid: Validator, f: File, base: set<Decl>)
    requires Kinded(f)
    ensures GivesUp(valid, Compound(f) + Others(f), base, false)
            <==> Compound(f) + Others(f) != [] && FailsList(valid, f, base)
  {
    hide GivesUp, FailsInTurn, NoneValid, Elements;
    KindedFile(f);
    KnownFile(f, base);
    GivesUpIf(valid, Compound(f), Others(f), base);
    FailsConcat(valid, f.types + f.structs, f.unions, base);
    FailsConcat(valid, f.types, f.structs, base);
  }

  lemma ShuffledFile(f: File, g: File, base: set<Decl>)
    requires Kinded(f) && Shuffled(f, g)
    ensures Kinded(g) && Reordered(Compound(f), Others(f), Compound(g), Others(g))
    ensures WithTypes(f, base) == WithTypes(g, base) && WithStructs(f, base) == WithStructs(g, base)
    ensures WithUnions(f, base) == WithUnions(g, base) && multiset(Others(f)) == multiset(Others(g))
    ensures Compound(f) + Others(f) == [] <==> Compound(g) + Others(g) == []
  {
    PermutedElements(f.types, g.types);
    PermutedElements(f.structs, g.structs);
    PermutedElements(f.unions, g.unions);
    PermutedElements(f.enums, g.enums);
    PermutedElements(f.decls, g.decls);
    SameKind(f.types, g.types);
    SameKind(f.structs, g.structs);
    SameKind(f.unions, g.unions);
    SameKind(f.enums, g.enums);
    SameKind(f.decls, g.decls);
    KindedFile(f);
    KindedFile(g);
    KnownFile(f, {});
    KnownFile(g, {});
    ElementsBoth(f.enums, f.decls);
    ElementsBoth(g.enums, g.decls);
    hide Elements, Kinded;
    assert {} + Elements(Compound(f)) == {} + Elements(Compound(g));
  }

  lemma SameKind(a: seq<Decl>, b: seq<Decl>)
    requires multiset(a) == multiset(b)
    ensures forall d :: d in a <==> d in b
  {
    assert forall d :: d in a <==> d in multiset(a);
    assert forall d :: d in b <==> d in multiset(b);
  }

  /** What all orders have in common. */
  lemma OrdersAgree(valid: Validator, f: File, g: File, base: set<Decl>)
    requires Monotone(valid) && Kinded(f) && Shuffled(f, g)
    ensures NeverGivesUp(valid, f, base) ==> !GivesUp(valid, Compound(g) + Others(g), base, false)
    ensures AlwaysGivesUp(valid, f, base) && Compound(f) + Others(f) != [] ==>
              GivesUp(valid, Compound(g) + Others(g), base, false)
  {
    hide Monotone, GivesUp, FailsInTurn, NoneValid, SomePass, NonePass, Kinded, Reordered, Compound, Others;
    hide WithTypes, WithStructs, WithUnions;
    ShuffledFile(f, g, base);
    FileGivesUp(valid, g, base);
    OrdersOf(valid, f.types, g.types, base);
    OrdersOf(valid, f.structs, g.structs, WithTypes(f, base));
    OrdersOf(valid, f.unions, g.unions, WithStructs(f, base));
    SameValid(valid, Others(f), Others(g), WithUnions(f, base));
  }

  lemma SomeGivesUp(valid: Validator, f: File, base: set<Decl>) returns (g: File)
    requires Kinded(f) && Compound(f) + Others(f) != [] && !NeverGivesUp(valid, f, base)
    ensures Shuffled(f, g) && GivesUp(valid, Compound(g) + Others(g), base, false)
  {
    hide GivesUp, FailsInTurn, NoneValid, Kinded, Reordered, Compound, WithTypes, WithStructs, WithUnions;
    hide Repeats, Core;
    var types := OrderThatFails(valid, f.types, base);
    var structs := OrderThatFails(valid, f.structs, WithTypes(f, base));
    var unions := OrderThatFails(valid, f.unions, WithStructs(f, base));
    g := File(types, structs, unions, f.enums, f.decls);
    ShuffledFile(f, g, base);
    FileGivesUp(valid, g, base);
  }

  lemma SomeGoesOn(valid: Validator, f: File, base: set<Decl>) returns (g: File)
    requires Kinded(f) && !NeverGivesUp(valid, f, base) && !AlwaysGivesUp(valid, f, base)
    ensures Shuffled(f, g) && !GivesUp(valid, Compound(g) + Others(g), base, false)
  {
    hide GivesUp, FailsInTurn, NoneValid, Kinded, Reordered, Compound, Others, WithTypes, WithStructs, WithUnions;
    hide NonePass, SomePass;
    g := f;
    if !NonePass(valid, f.types, base) {
      var types := OrderThatPasses(valid, f.types, base);
      g := g.(types := types);
    } else if !NonePass(valid, f.structs, WithTypes(f, base)) {
      var structs := OrderThatPasses(valid, f.structs, WithTypes(f, base));
      g := g.(structs := structs);
    } else {
      var unions := OrderThatPasses(valid, f.unions, WithStructs(f, base));
      g := g.(unions := unions);
    }
    ShuffledFile(f, g, base);
    FileGivesUp(valid, g, base);
  }

  function SilentRun(valid: Validator, f: File, base: set<Decl>): set<Decl> {
    Run(valid, Compound(f) + Others(f), State(base, {}), false).acc
  }

  /** The order within the lists does not matter to a silent run. */
  ghost predicate Independent(valid: Validator, f: File, base: set<Decl>) {
    forall g :: Shuffled(f, g) ==> SilentRun(valid, g, base) == SilentRun(valid, f, base)
  }

  /** What a silent run accepts depends on no order exactly if no order gives up, or all do, or no type,
      struct or union is new. */
  lemma SilentOrderIrrelevant(valid: Validator, f: File, base: set<Decl>)
    requires Monotone(valid) && Kinded(f)
    ensures Independent(valid, f, base)
            <==> NeverGivesUp(valid, f, base) || AlwaysGivesUp(valid, f, base) || Elements(Compound(f)) <= base
  {
    hide GivesUp, Monotone, NeverGivesUp, AlwaysGivesUp, Shuffled, Kinded, SilentRun, Elements;
    SameOrder(f);
    forall g | Shuffled(f, g) ensures Agrees(valid, f, g, base) {
      ShuffledAgree(valid, f, g, base);
    }
    if NeverGivesUp(valid, f, base) || AlwaysGivesUp(valid, f, base) {
      forall g | Shuffled(f, g) ensures SilentRun(valid, g, base) == SilentRun(valid, f, base) {
        OrdersAgree(valid, f, f, base);
        OrdersAgree(valid, f, g, base);
        if Compound(f) + Others(f) == [] {
          NothingToShuffle(valid, f, g, base);
        }
      }
    } else if !(Elements(Compound(f)) <= base) {
      NothingNew(f, base);
      var first := SomeGivesUp(valid, f, base);
      var second := SomeGoesOn(valid, f, base);
      assert Agrees(valid, f, first, base) && Agrees(valid, f, second, base);
    }
  }

  /** Two orders give the same exactly if both give up or none does, or nothing is new. */
  ghost predicate Agrees(valid: Validator, f: File, g: File, base: set<Decl>) {
    var one, other := GivesUp(valid, Compound(f) + Others(f), base, false),
                      GivesUp(valid, Compound(g) + Others(g), base, false);
    SilentRun(valid, g, base) == SilentRun(valid, f, base) <==> ((one <==> other) || Elements(Compound(f)) <= base)
  }

  lemma ShuffledAgree(valid: Validator, f: File, g: File, base: set<Decl>)
    requires Monotone(valid) && Kinded(f) && Shuffled(f, g)
    ensures Agrees(valid, f, g, base)
  {
    hide Run, GivesUp, Monotone, Kinded, Compound, Others;
    ShuffledFile(f, g, base);
    SilentOrderExactly(valid, Compound(f), Others(f), Compound(g), Others(g), base);
  }

  lemma NothingToShuffle(valid: Validator, f: File, g: File, base: set<Decl>)
    requires Kinded(f) && Shuffled(f, g) && Compound(f) + Others(f) == []
    ensures SilentRun(valid, g, base) == SilentRun(valid, f, base)
  {
    hide Run;
    ShuffledFile(f, g, base);
    assert Compound(g) + Others(g) == [];
  }

  lemma NothingNew(f: File, base: set<Decl>)
    requires !(Elements(Compound(f)) <= base)
    ensures Compound(f) + Others(f) != []
  {
  }

  lemma SameOrder(f: File)
    ensures Shuffled(f, f)
  {
  }

  /** An invalid struct on its own: accepted by the second pass if errors may be shown, given up
      after the first otherwise. */
  lemma InvalidAccepted(valid: Validator, d: Decl)
    requires Stacked(d.cat) && !valid(d, {d})
    ensures Run(valid, [d], State({}, {}), true) == Final({d}, [])
    ensures Run(valid, [d], State({}, {}), false) == Final({}, [d])
  {
    OnePass(valid, d, State({}, {}));
    OnePass(valid, d, State({}, {d}));
    hide Sweep, Rest, Run;
    assert {} + {} + {d} == {d} && {} + {d} == {d} && {d} + {d} == {d};
    RunUnfold(valid, [d], State({}, {}), true);
    RunUnfold(valid, [d], State({}, {}), false);
    RunUnfold(valid, [d], State({}, {d}), false);
    RunUnfold(valid, [], State({d}, {d}), false);
  }

  lemma OnePass(valid: Validator, d: Decl, s: State)
    ensures var ok := Passes(valid, d, s.acc, s.stack);
            && Sweep(valid, [d], s) == State(if ok then s.acc + {d} else s.acc, StackAfter(d, s.stack))
            && Rest(valid, [d], s) == if ok then [] else [d]
  {
    var none: seq<Decl> := [];
    assert none + [d] == [d];
    SweepLast(valid, none, d, s);
  }

  /** Without shown errors the order matters where an invalid declaration is a type, struct or union:
      `b`, which needs the invalid `a`, takes `a` along if it comes after it, not if it comes before. */
  lemma SilentOrderMatters(valid: Validator, a: Decl, b: Decl)
    requires Stacked(a.cat) && a.cat == b.cat && a != b
    requires forall acc :: !valid(a, acc) && (valid(b, acc) <==> a in acc)
    ensures Run(valid, [a, b], State({}, {}), false) == Final({a, b}, [])
    ensures Run(valid, [b, a], State({}, {}), false) == Final({}, [b, a])
  {
    TwoPasses(valid, a, b, State({}, {}));
    TwoPasses(valid, b, a, State({}, {}));
    OnePass(valid, a, State({b}, {a, b}));
    hide Sweep, Rest, Run;
    assert {} + {a} + {b} == {a, b} && {} + {b} == {b} && {b} + {a} == {a, b} && {a, b} + {a} == {a, b};
    assert Rest(valid, [a, b], State({}, {})) == [a];
    RunUnfold(valid, [b, a], State({}, {}), false);
    RunUnfold(valid, [a, b], State({}, {}), false);
    RunUnfold(valid, [a], State({b}, {a, b}), false);
    RunUnfold(valid, [], State({a, b}, {a, b}), false);
    assert {a} + {b} == {a, b} && {b} + {a} == {a, b};
  }

  lemma TwoPasses(valid: Validator, a: Decl, b: Decl, s: State)
    ensures var s1 := State(if Passes(valid, a, s.acc, s.stack) then s.acc + {a} else s.acc, StackAfter(a, s.stack));
            && var ok := Passes(valid, b, s1.acc, s1.stack);
            && Sweep(valid, [a, b], s) == State(if ok then s1.acc + {b} else s1.acc, StackAfter(b, s1.stack))
            && Rest(valid, [a, b], s) == (if Passes(valid, a, s.acc, s.stack) then [] else [a]) + (if ok then []
                                                                                                   else [b])
  {
    assert [a, b] == [a] + [b];
    SweepConcat(valid, [a], [b], s);
    OnePass(valid, a, s);
    OnePass(valid, b, Sweep(valid, [a], s));
  }

  // ----- how many passes -----

  /** The passes from here on until one accepts nothing, or follows one that left nothing. */
  function Passings(valid: Validator, ds: seq<Decl>, s: State): (n: nat)
    ensures n > 0
    decreases |ds|
  {
    var rest := Rest(valid, ds, s);
    if |rest| < |ds| then 1 + Passings(valid, rest, Sweep(valid, ds, s)) else 1
  }

  /** The passes that show errors, if the first one that accepts nothing makes them visible. */
  function LoudPassings(valid: Validator, ds: seq<Decl>, s: State): nat
    decreases |ds|
  {
    var rest, s' := Rest(valid, ds, s), Sweep(valid, ds, s);
    if |rest| < |ds| then LoudPassings(valid, rest, s') else if ds == [] then 0 else Passings(valid, ds, s')
  }

  lemma {:induction false} LoudLater(valid: Validator, ts: seq<Decl>, es: seq<Decl>, s: State)
    requires AllStacked(ts) && NoneStacked(es) && Elements(ts) <= s.stack
    ensures LoudPassings(valid, ts + es, s) <= 1
    decreases |ts| + |es|
  {
    var s1 := State(s.acc + Elements(ts), s.stack);
    var s', rest := Sweep(valid, es, s1), Rest(valid, es, s1);
    LaterSweep(valid, ts, es, s);
    SweepSplits(valid, es, s1);
    NothingFirst(rest);
    if |rest| < |ts + es| {
      LoudLater(valid, [], rest, s');
    } else if ts + es != [] {
      assert ts == [] && s1 == s;
      NothingFirst(es);
      StuckAgain(valid, es, s);
    }
  }

  /** Without the type stack a pass that accepts nothing changes nothing. */
  lemma StuckAgain(valid: Validator, es: seq<Decl>, s: State)
    requires NoneStacked(es) && |Rest(valid, es, s)| == |es|
    ensures Sweep(valid, es, s) == s && Passings(valid, es, s) == 1
  {
    SweepStuck(valid, es, s);
    SweepStacks(valid, es, s);
  }

  /** Errors are shown in one pass at most, unless the very first one accepts nothing and finds a
      type, struct or union, which the next one then accepts. */
  lemma LoudExactly(valid: Validator, ts: seq<Decl>, es: seq<Decl>, base: set<Decl>)
    requires AllStacked(ts) && NoneStacked(es)
    ensures LoudPassings(valid, ts + es, State(base, {})) > 1
            <==> ts != [] && |Rest(valid, ts + es, State(base, {}))| == |ts + es|
  {
    hide Sweep, Rest, Elements;
    var ds, s := ts + es, State(base, {});
    var s', rest := Sweep(valid, ds, s), Rest(valid, ds, s);
    var restTs, restEs := FirstSweep(valid, ts, es, s);
    if |rest| < |ds| {
      LoudLater(valid, restTs, restEs, s');
    } else if ts != [] {
      LaterSweep(valid, ts, es, s');
      assert |Rest(valid, ds, s')| < |ds|;
    } else {
      NothingFirst(es);
      assert ds == es;
      if es != [] {
        StuckAgain(valid, es, s);
      }
    }
  }

  /** No pass shows errors exactly if passes that do not show any accept everything. */
  lemma {:induction false} LoudNever(valid: Validator, ds: seq<Decl>, s: State)
    ensures LoudPassings(valid, ds, s) == 0 <==> Run(valid, ds, s, false).remaining == []
    decreases |ds|
  {
    hide Sweep, Rest;
    var rest := Rest(valid, ds, s);
    if |rest| < |ds| {
      LoudNever(valid, rest, Sweep(valid, ds, s));
    }
  }

  /** An invalid struct on its own makes two passes show errors. */
  lemma LoudTwice(valid: Validator, d: Decl)
    requires Stacked(d.cat) && !valid(d, {d})
    ensures LoudPassings(valid, [d], State({}, {})) == 2
  {
    OnePass(valid, d, State({}, {}));
    OnePass(valid, d, State({}, {d}));
    hide Sweep, Rest;
    assert {} + {} + {d} == {d} && {} + {d} == {d} && {d} + {d} == {d};
    LastPassing(valid, State({d}, {d}));
  }

  lemma LastPassing(valid: Validator, s: State)
    ensures Passings(valid, [], s) == 1
  {
  }
}
