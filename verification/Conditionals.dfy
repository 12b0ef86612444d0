/** The bookkeeping of #if groups with one level, one skip mark and a set of taken levels
    (psi_cpp_exp_exec), against the plain stack of nested groups. */
module Conditionals {

  /** `seen` holds the levels whose bit is set in the source's mask. */
  datatype Levels = Levels(level: nat, skip: nat, seen: set<nat>)

  /** #if, #ifdef and #ifndef carry whether their condition holds. */
  datatype Group = If(holds: bool) | Elif(holds: bool) | Else | Endif

  /** The mask is shifted into with `1 << level` on an int, which is defined as long as the result fits
      into 31 value bits (section 6.5.7 of ISO/IEC 9899:2011). */
  const WIDTH: nat := 31

  /** `ok` is false if one of the source's assertions fails on the way, or a shift is not defined. */
  datatype Outcome = Outcome(levels: Levels, ok: bool)

  const START := Levels(0, 0, {})

  predicate Skipped(c: Levels) {
    c.skip == c.level
  }

  predicate Masked(c: Levels) {
    c.level in c.seen
  }

  function Skip(c: Levels): Outcome {
    Outcome(c.(skip := c.level), c.skip == 0)
  }

  function Unskip(c: Levels): Levels {
    if Skipped(c) then c.(skip := 0) else c
  }

  predicate Shiftable(c: Levels) {
    c.level < WIDTH
  }

  function Mask(c: Levels): Outcome {
    Outcome(c.(seen := c.seen + {c.level}), Shiftable(c) && !Masked(c))
  }

  function Exec(c: Levels, g: Group): Outcome {
    match g
    case If(holds) =>
      var c1 := c.(level := c.level + 1);
      if c.skip != 0 then Outcome(c1, true) else if holds then Mask(c1) else Skip(c1)
    case Endif =>
      if c.level == 0 then Outcome(c, true)
      else
        var c1 := Unskip(c);
        Outcome(c1.(seen := c1.seen - {c1.level}, level := c1.level - 1), Shiftable(c1))
    case Else => Alternative(c, true)
    case Elif(holds) => Alternative(c, holds)
  }

  function Alternative(c: Levels, holds: bool): Outcome {
    if c.level == 0 then Outcome(c, true)
    else if (Skipped(c) || c.skip == 0) && !Shiftable(c) then Outcome(c, false)
    else if Skipped(c) && !Masked(c) then
      if holds then Mask(Unskip(c)) else Outcome(c, true)
    else if c.skip == 0 && Masked(c) then Skip(c)
    else Outcome(c, c.skip <= c.level)
  }

  // ----- the reference: a stack of open #if groups -----

  /** `open`: the current part of the group is the chosen one; `taken`: a part was chosen, or
      none may be. */
  datatype Frame = Frame(open: bool, taken: bool)

  predicate Active(st: seq<Frame>) {
    forall i :: 0 <= i < |st| ==> st[i].open
  }

  function Apply(st: seq<Frame>, g: Group): seq<Frame> {
    match g
    case If(holds) => if Active(st) then st + [Frame(holds, holds)] else st + [Frame(false, true)]
    case Endif => if st == [] then st else st[..|st| - 1]
    case Else => Switch(st, true)
    case Elif(holds) => Switch(st, holds)
  }

  /** The next part of the innermost group: chosen if its condition holds and no part was before. */
  function Switch(st: seq<Frame>, holds: bool): seq<Frame> {
    if st == [] || !Active(st[..|st| - 1]) then st
    else if st[|st| - 1].taken then st[|st| - 1 := Frame(false, true)]
    else st[|st| - 1 := Frame(holds, holds)]
  }

  /** Whether the mask is used for a group that is nested too deep for it: where a part of an #if that is
      not skipped holds, where an alternative to such a group comes, and wherever a group ends. */
  predicate TooDeep(st: seq<Frame>, g: Group) {
    match g
    case If(holds) => Active(st) && holds && |st| + 1 >= WIDTH
    case Endif => |st| >= WIDTH
    case _ => st != [] && Active(st[..|st| - 1]) && |st| >= WIDTH
  }

  /** `c` represents `st`, whose first `f` frames are open and whose next one, if any, is not. */
  ghost predicate Represents(c: Levels, st: seq<Frame>, f: nat) {
    && c.level == |st| && f <= |st|
    && (forall i :: 0 <= i < f ==> st[i] == Frame(true, true))
    && (forall i :: f < i < |st| ==> st[i] == Frame(false, true))
    && (f < |st| ==> !st[f].open)
    && c.skip == (if f < |st| then f + 1 else 0)
    && (forall k :: k in c.seen <==> 1 <= k <= f || (k == f + 1 && f < |st| && st[f].taken))
  }

  /** Each directive keeps the representation and no assertion of the source fails, unless it is nested too deep. */
  lemma ExecRefines(c: Levels, st: seq<Frame>, f: nat, g: Group) returns (f': nat)
    requires Represents(c, st, f)
    ensures Exec(c, g).ok <==> !TooDeep(st, g)
    ensures !TooDeep(st, g) ==> Represents(Exec(c, g).levels, Apply(st, g), f')
  {
    var n := |st|;
    assert f == n <==> Active(st);
    match g
    case If(holds) => f' := if f == n && holds then n + 1 else f;
    case Endif => f' := if n > 0 && f == n then n - 1 else f;
    case Else => f' := AlternativeRefines(c, st, f, true);
    case Elif(holds) => f' := AlternativeRefines(c, st, f, holds);
  }

  lemma AlternativeRefines(c: Levels, st: seq<Frame>, f: nat, holds: bool) returns (f': nat)
    requires Represents(c, st, f)
    ensures Alternative(c, holds).ok <==> !TooDeep(st, Elif(holds))
    ensures !TooDeep(st, Elif(holds)) ==> Represents(Alternative(c, holds).levels, Switch(st, holds), f')
  {
    var n := |st|;
    f' := f;
    if n > 0 {
      assert Active(st[..n - 1]) <==> f >= n - 1;
      if f == n {
        f' := n - 1;
      } else if f == n - 1 && !st[f].taken && holds {
        f' := n;
      }
    }
  }

  /** The levels represent some stack of groups. */
  ghost predicate Sound(c: Levels) {
    exists st, f :: Represents(c, st, f)
  }

  lemma StartSound()
    ensures Sound(START)
  {
    assert Represents(START, [], 0);
  }

  /** Sound levels stay sound, and only a shift can fail on them, for a group that is nested too deep. */
  lemma ExecSound(c: Levels, g: Group)
    requires Sound(c)
    ensures Exec(c, g).ok ==> Sound(Exec(c, g).levels)
    ensures c.level + 1 < WIDTH ==> Exec(c, g).ok
  {
    var st, f :| Represents(c, st, f);
    var f' := ExecRefines(c, st, f, g);
  }

  function ExecAll(c: Levels, gs: seq<Group>): Outcome {
    if gs == [] then Outcome(c, true)
    else
      var r := ExecAll(c, gs[..|gs| - 1]);
      var r' := Exec(r.levels, gs[|gs| - 1]);
      Outcome(r'.levels, r.ok && r'.ok)
  }

  function ApplyAll(gs: seq<Group>): seq<Frame> {
    if gs == [] then [] else Apply(ApplyAll(gs[..|gs| - 1]), gs[|gs| - 1])
  }

  /** No directive of `gs` is nested too deep. */
  predicate Shallow(gs: seq<Group>) {
    gs == [] || (Shallow(gs[..|gs| - 1]) && !TooDeep(ApplyAll(gs[..|gs| - 1]), gs[|gs| - 1]))
  }

  lemma {:induction false} RunRefines(gs: seq<Group>) returns (f: nat)
    ensures ExecAll(START, gs).ok <==> Shallow(gs)
    ensures Shallow(gs) ==> Represents(ExecAll(START, gs).levels, ApplyAll(gs), f)
  {
    f := 0;
    if gs != [] {
      f := RunRefines(gs[..|gs| - 1]);
      if Shallow(gs[..|gs| - 1]) {
        f := ExecRefines(ExecAll(START, gs[..|gs| - 1]).levels, ApplyAll(gs[..|gs| - 1]), f, gs[|gs| - 1]);
      }
    }
  }

  /** A sequence of directives stays defined, with no assertion failing, exactly if none is nested too deep;
      then text is skipped after it exactly if some enclosing group is not in its chosen part. */
  lemma SkipsExactly(gs: seq<Group>)
    ensures var r := ExecAll(START, gs);
            && (r.ok <==> Shallow(gs))
            && (r.ok ==> (r.levels.skip == 0 <==> Active(ApplyAll(gs))))
            && (r.ok ==> r.levels.skip <= r.levels.level == |ApplyAll(gs)|)
  {
    var f := RunRefines(gs);
  }

  /** Fewer open groups than the mask has bits are always fine. */
  lemma {:induction false} ShallowNesting(gs: seq<Group>)
    requires forall i :: 0 <= i <= |gs| ==> |ApplyAll(gs[..i])| < WIDTH
    ensures Shallow(gs)
  {
    if gs != [] {
      var front := gs[..|gs| - 1];
      assert gs[..|gs|] == gs && forall i :: 0 <= i <= |front| ==> front[..i] == gs[..i];
      ShallowNesting(front);
      assert |ApplyAll(gs[..|gs| - 1])| < WIDTH && |ApplyAll(gs[..|gs|])| < WIDTH;
    }
  }

  function Opened(n: nat, holds: bool): seq<Group> {
    if n == 0 then [] else Opened(n - 1, holds) + [If(holds)]
  }

  lemma {:induction false} OpenedStack(n: nat, holds: bool)
    ensures var st := ApplyAll(Opened(n, holds));
            |st| == n && (Active(st) <==> holds || n == 0)
    ensures Shallow(Opened(n, holds)) <==> !holds || n < WIDTH
  {
    if n > 0 {
      OpenedStack(n - 1, holds);
      assert Opened(n, holds)[..|Opened(n, holds)| - 1] == Opened(n - 1, holds);
      var before, st := ApplyAll(Opened(n - 1, holds)), ApplyAll(Opened(n, holds));
      assert st[..n - 1] == before;
      if Active(before) {
        assert st[n - 1].open == holds;
      } else {
        var i :| 0 <= i < |before| && !before[i].open;
        assert !st[i].open;
      }
    }
  }

  /** As many groups that hold as the mask has bits are too many; if they do not hold, the first #endif is. */
  lemma DeepestNesting()
    ensures Shallow(Opened(WIDTH - 1, true)) && !Shallow(Opened(WIDTH, true))
    ensures Shallow(Opened(WIDTH, false)) && !Shallow(Opened(WIDTH, false) + [Endif])
  {
    OpenedStack(WIDTH - 1, true);
    OpenedStack(WIDTH, true);
    OpenedStack(WIDTH, false);
    var gs := Opened(WIDTH, false);
    assert (gs + [Endif])[..|gs|] == gs;
  }

  /** The part that directive `g` begins may be chosen; an #else always may. */
  predicate MayBeChosen(g: Group) {
    g.Else? || ((g.If? || g.Elif?) && g.holds)
  }

  /** The directives that begin the parts of one group. */
  predicate IsGroup(parts: seq<Group>) {
    parts != [] && parts[0].If? && forall i :: 0 < i < |parts| ==> parts[i].Elif? || parts[i].Else?
  }

  function Parts(st: seq<Frame>, parts: seq<Group>): seq<Frame> {
    if parts == [] then st else Apply(Parts(st, parts[..|parts| - 1]), parts[|parts| - 1])
  }

  predicate AnyMayBe(parts: seq<Group>) {
    exists i :: 0 <= i < |parts| && MayBeChosen(parts[i])
  }

  /** At most one part is ever chosen, the first one that may be, and none inside skipped text. */
  lemma {:induction false} FirstPartChosen(st: seq<Frame>, parts: seq<Group>)
    requires IsGroup(parts)
    ensures var n := |parts| - 1;
            Parts(st, parts) ==
            st + [if Active(st) then Frame(MayBeChosen(parts[n]) && !AnyMayBe(parts[..n]), AnyMayBe(parts))
                  else Frame(false, true)]
  {
    var n := |parts| - 1;
    if n > 0 {
      FirstPartChosen(st, parts[..n]);
      var before := Parts(st, parts[..n]);
      assert before[..|before| - 1] == st;
    } else {
      assert Parts(st, parts[..0]) == st;
    }
    assert AnyMayBe(parts) <==> AnyMayBe(parts[..n]) || MayBeChosen(parts[n]);
  }

  // ----- the width of the mask -----

  function Power(n: nat): nat {
    if n == 0 then 1 else 2 * Power(n - 1)
  }

  /** The mask is shifted exactly as far as the result fits into an int of 32 bits. */
  lemma ShiftableExactly(c: Levels)
    ensures Shiftable(c) <==> Power(c.level) <= 0x7fff_ffff
  {
    PowerOf31();
    if c.level < 31 {
      PowerGrows(c.level, 30);
    } else {
      PowerGrows(31, c.level);
    }
  }

  lemma PowerOf31()
    ensures Power(31) == 0x8000_0000
  {
    PowerOfSum(4, 4);
    PowerOfSum(8, 8);
    PowerOfSum(16, 8);
    PowerOfSum(24, 4);
    PowerOfSum(28, 3);
  }

  lemma {:induction false} PowerOfSum(m: nat, n: nat)
    ensures Power(m + n) == Power(m) * Power(n)
  {
    if n > 0 {
      PowerOfSum(m, n - 1);
    }
  }

  lemma {:induction false} PowerGrows(m: nat, n: nat)
    requires m <= n
    ensures Power(m) <= Power(n)
  {
    if m < n {
      PowerGrows(m, n - 1);
    }
  }
}
