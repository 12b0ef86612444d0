/** When text between #if directives is active, told from the directives before it. */
module OpenGroups {
  import opened Conditionals

  /** How many groups are open after the first `n` directives; an #endif too many closes none. */
  function Depth(gs: seq<Group>, n: nat): nat
    requires n <= |gs|
  {
    if n == 0 then 0
    else
      var d := Depth(gs, n - 1);
      if gs[n - 1].If? then d + 1 else if gs[n - 1].Endif? && d > 0 then d - 1 else d
  }

  /** The group that directive `i` begins is open after the first `n`. */
  predicate IsOpen(gs: seq<Group>, i: nat, n: nat)
    requires n <= |gs|
  {
    i < n && gs[i].If? && forall j :: i < j <= n ==> Depth(gs, j) > Depth(gs, i)
  }

  /** Directive `j` begins a part of the group that directive `i` begins. */
  predicate IsPart(gs: seq<Group>, i: nat, j: nat)
    requires j < |gs|
  {
    j == i || (i < j && (gs[j].Elif? || gs[j].Else?) && Depth(gs, j) == Depth(gs, i) + 1)
  }

  ghost predicate SomePart(gs: seq<Group>, i: nat, n: nat)
    requires n <= |gs|
  {
    exists j :: i <= j < n && IsPart(gs, i, j) && MayBeChosen(gs[j])
  }

  /** The last part of the group that directive `i` begins is the first one that may be chosen. */
  ghost predicate LastChosen(gs: seq<Group>, i: nat, n: nat)
    requires n <= |gs|
  {
    exists j :: i <= j < n && IsPart(gs, i, j) && MayBeChosen(gs[j])
      && forall k :: i <= k < n && IsPart(gs, i, k) && k != j ==> k < j && !MayBeChosen(gs[k])
  }

  /** In every open group the last part is the first one that may be chosen. */
  ghost predicate Shown(gs: seq<Group>, n: nat)
    requires n <= |gs|
  {
    forall i :: 0 <= i < n && IsOpen(gs, i, n) ==> LastChosen(gs, i, n)
  }

  // ----- the stack of groups -----

  /** Frame number `l` says which parts of the group that directive `i` begins are chosen. */
  ghost predicate Frames(gs: seq<Group>, n: nat, st: seq<Frame>, i: nat, l: nat)
    requires n <= |gs| && l < |st|
  {
    && IsOpen(gs, i, n) && Depth(gs, i) == l
    && (Active(st[..l]) ==>
          (st[l].open <==> LastChosen(gs, i, n)) && (st[l].taken <==> SomePart(gs, i, n)))
  }

  /** `at` are the directives that begin the open groups. */
  ghost predicate Describes(gs: seq<Group>, n: nat, st: seq<Frame>, at: seq<nat>)
    requires n <= |gs|
  {
    |st| == |at| == Depth(gs, n) && forall l :: 0 <= l < |at| ==> Frames(gs, n, st, at[l], l)
  }

  lemma OnlyOne(gs: seq<Group>, i: nat, j: nat, n: nat)
    requires n <= |gs| && IsOpen(gs, i, n) && IsOpen(gs, j, n) && Depth(gs, i) == Depth(gs, j)
    ensures i == j
  {
  }

  lemma OpenNext(gs: seq<Group>, i: nat, n: nat)
    requires i < n < |gs|
    ensures IsOpen(gs, i, n + 1) <==> IsOpen(gs, i, n) && Depth(gs, n + 1) > Depth(gs, i)
  {
  }

  lemma DepthNext(gs: seq<Group>, n: nat)
    requires n < |gs|
    ensures Depth(gs, n + 1) == (if gs[n].If? then Depth(gs, n) + 1
                                 else if gs[n].Endif? && Depth(gs, n) > 0 then Depth(gs, n) - 1 else Depth(gs, n))
  {
  }

  /** A directive that begins no part of a group changes nothing of what was chosen in it. */
  lemma SamePart(gs: seq<Group>, i: nat, n: nat)
    requires i < n < |gs| && !IsPart(gs, i, n)
    ensures LastChosen(gs, i, n + 1) <==> LastChosen(gs, i, n)
    ensures SomePart(gs, i, n + 1) <==> SomePart(gs, i, n)
  {
    hide IsPart, MayBeChosen;
  }

  /** A further part of a group is chosen if its condition holds and none before it was chosen. */
  lemma NextPart(gs: seq<Group>, i: nat, n: nat)
    requires i < n < |gs| && IsPart(gs, i, n)
    ensures LastChosen(gs, i, n + 1) <==> MayBeChosen(gs[n]) && !SomePart(gs, i, n)
    ensures SomePart(gs, i, n + 1) <==> MayBeChosen(gs[n]) || SomePart(gs, i, n)
  {
    hide IsPart, MayBeChosen;
  }

  lemma FirstPart(gs: seq<Group>, n: nat)
    requires n < |gs|
    ensures LastChosen(gs, n, n + 1) <==> MayBeChosen(gs[n])
    ensures SomePart(gs, n, n + 1) <==> MayBeChosen(gs[n])
  {
    assert IsPart(gs, n, n);
  }

  /** A frame below the innermost group, or below one that begins or ends, stays as it is. */
  lemma FrameStays(gs: seq<Group>, n: nat, st: seq<Frame>, st': seq<Frame>, i: nat, l: nat)
    requires n < |gs| && l < |st| && l < |st'| && Frames(gs, n, st, i, l) && st'[..l + 1] == st[..l + 1]
    requires Depth(gs, n + 1) > l && !IsPart(gs, i, n)
    ensures Frames(gs, n + 1, st', i, l)
  {
    OpenNext(gs, i, n);
    SamePart(gs, i, n);
    assert st'[..l + 1][..l] == st'[..l] && st[..l + 1][..l] == st[..l] && st'[..l + 1][l] == st[..l + 1][l];
    hide LastChosen, SomePart, IsOpen, IsPart, Active, Depth;
  }

  lemma BeginsGroup(gs: seq<Group>, n: nat, st: seq<Frame>, at: seq<nat>)
    requires n < |gs| && gs[n].If? && Describes(gs, n, st, at)
    ensures Describes(gs, n + 1, Apply(st, gs[n]), at + [n])
  {
    hide Frames, Depth;
    var st' := Apply(st, gs[n]);
    DepthNext(gs, n);
    FrameBegins(gs, n, st);
    forall l | 0 <= l < |at| ensures Frames(gs, n + 1, st', at[l], l) {
      FrameIsOpen(gs, n, st, at[l], l);
      FrameStays(gs, n, st, st', at[l], l);
    }
  }

  lemma FrameIsOpen(gs: seq<Group>, n: nat, st: seq<Frame>, i: nat, l: nat)
    requires n <= |gs| && l < |st| && Frames(gs, n, st, i, l)
    ensures i < n && Depth(gs, i) == l && IsOpen(gs, i, n)
  {
  }

  lemma FrameBegins(gs: seq<Group>, n: nat, st: seq<Frame>)
    requires n < |gs| && gs[n].If? && |st| == Depth(gs, n)
    ensures Frames(gs, n + 1, Apply(st, gs[n]), n, |st|)
  {
    DepthNext(gs, n);
    FirstPart(gs, n);
    assert Apply(st, gs[n])[..|st|] == st;
    hide LastChosen, SomePart, Depth;
  }

  lemma EndsGroup(gs: seq<Group>, n: nat, st: seq<Frame>, at: seq<nat>)
    requires n < |gs| && gs[n].Endif? && st != [] && Describes(gs, n, st, at)
    ensures Describes(gs, n + 1, Apply(st, gs[n]), at[..|at| - 1])
  {
    hide Frames, Depth;
    var st' := Apply(st, gs[n]);
    DepthNext(gs, n);
    forall l | 0 <= l < |at| - 1 ensures Frames(gs, n + 1, st', at[l], l) {
      FrameIsOpen(gs, n, st, at[l], l);
      FrameStays(gs, n, st, st', at[l], l);
    }
  }

  lemma NextInGroup(gs: seq<Group>, n: nat, st: seq<Frame>, at: seq<nat>)
    requires n < |gs| && (gs[n].Elif? || gs[n].Else?) && st != [] && Describes(gs, n, st, at)
    ensures Describes(gs, n + 1, Apply(st, gs[n]), at)
  {
    hide Frames, Depth;
    var st', top := Apply(st, gs[n]), |at| - 1;
    DepthNext(gs, n);
    forall l | 0 <= l < top ensures Frames(gs, n + 1, st', at[l], l) {
      FrameIsOpen(gs, n, st, at[l], l);
      FrameStays(gs, n, st, st', at[l], l);
    }
    FrameNext(gs, n, st, at[top]);
  }

  lemma FrameNext(gs: seq<Group>, n: nat, st: seq<Frame>, i: nat)
    requires n < |gs| && (gs[n].Elif? || gs[n].Else?) && st != [] && |st| == Depth(gs, n)
    requires Frames(gs, n, st, i, |st| - 1)
    ensures Frames(gs, n + 1, Apply(st, gs[n]), i, |st| - 1)
  {
    var top := |st| - 1;
    DepthNext(gs, n);
    OpenNext(gs, i, n);
    NextPart(gs, i, n);
    assert Apply(st, gs[n])[..top] == st[..top];
    hide LastChosen, SomePart, Active, Depth;
  }

  lemma {:induction false} StackDescribes(gs: seq<Group>, n: nat) returns (at: seq<nat>)
    requires n <= |gs|
    ensures Describes(gs, n, ApplyAll(gs[..n]), at)
  {
    hide Describes, Apply;
    if n == 0 {
      at := [];
      NothingOpen(gs);
    } else {
      at := StackDescribes(gs, n - 1);
      var st := ApplyAll(gs[..n - 1]);
      assert gs[..n][..n - 1] == gs[..n - 1] && gs[..n][n - 1] == gs[n - 1];
      at := StackNext(gs, n - 1, st, at);
    }
  }

  lemma NothingOpen(gs: seq<Group>)
    ensures Describes(gs, 0, [], [])
  {
  }

  lemma StackNext(gs: seq<Group>, n: nat, st: seq<Frame>, at: seq<nat>) returns (at': seq<nat>)
    requires n < |gs| && Describes(gs, n, st, at)
    ensures Describes(gs, n + 1, Apply(st, gs[n]), at')
  {
    if gs[n].If? {
      at' := at + [n];
      BeginsGroup(gs, n, st, at);
    } else if st == [] {
      at' := at;
      DepthNext(gs, n);
    } else if gs[n].Endif? {
      at' := at[..|at| - 1];
      EndsGroup(gs, n, st, at);
    } else {
      at' := at;
      NextInGroup(gs, n, st, at);
    }
  }

  /** All frames are open exactly if in every open group the last part is the first one that may be chosen. */
  lemma ActiveExactly(gs: seq<Group>)
    ensures Active(ApplyAll(gs)) <==> Shown(gs, |gs|)
  {
    var n, st := |gs|, ApplyAll(gs);
    assert gs[..n] == gs;
    var at := StackDescribes(gs, n);
    hide LastChosen, SomePart, Depth, IsOpen;
    if Active(st) {
      forall i | 0 <= i < n && IsOpen(gs, i, n) ensures LastChosen(gs, i, n) {
        DepthOfOpen(gs, i, n);
        var l := Depth(gs, i);
        OnlyOne(gs, i, at[l], n);
        assert Active(st[..l]);
      }
    }
    if Shown(gs, n) {
      AllChosen(gs, n, st, at, |st|);
      assert st[..|st|] == st;
    }
  }

  lemma DepthOfOpen(gs: seq<Group>, i: nat, n: nat)
    requires n <= |gs| && IsOpen(gs, i, n)
    ensures Depth(gs, i) < Depth(gs, n)
  {
  }

  lemma {:induction false} AllChosen(gs: seq<Group>, n: nat, st: seq<Frame>, at: seq<nat>, l: nat)
    requires n <= |gs| && Describes(gs, n, st, at) && Shown(gs, n) && l <= |st|
    ensures Active(st[..l])
  {
    hide LastChosen, SomePart, Depth;
    if l > 0 {
      AllChosen(gs, n, st, at, l - 1);
      assert st[..l] == st[..l - 1] + [st[l - 1]];
      assert IsOpen(gs, at[l - 1], n);
    }
  }

  /** Text is skipped after a sequence of directives, none of which is nested too deep, exactly unless in every open
      group the last part is the first one that may be chosen, an #else counting as one that does. */
  lemma SkippedUnlessShown(gs: seq<Group>)
    requires Shallow(gs)
    ensures ExecAll(START, gs).ok
    ensures ExecAll(START, gs).levels.skip == 0 <==> Shown(gs, |gs|)
  {
    hide Shown, Active;
    SkipsExactly(gs);
    ActiveExactly(gs);
  }

  // ----- whole groups -----

  /** From directive `n` on there is a whole group, with all that is nested in it. */
  predicate WholeGroup(gs: seq<Group>, n: nat)
    requires n <= |gs|
  {
    && n < |gs| && gs[n].If? && Depth(gs, |gs|) == Depth(gs, n)
    && forall j :: n < j < |gs| ==> Depth(gs, j) > Depth(gs, n)
  }

  lemma {:induction false} DepthOfStack(gs: seq<Group>, n: nat)
    requires n <= |gs|
    ensures |ApplyAll(gs[..n])| == Depth(gs, n)
  {
    var at := StackDescribes(gs, n);
  }

  lemma ApplyNext(gs: seq<Group>, n: nat)
    requires n < |gs|
    ensures ApplyAll(gs[..n + 1]) == Apply(ApplyAll(gs[..n]), gs[n])
  {
    assert gs[..n + 1][..n] == gs[..n];
  }

  /** Inside of a group nothing below it changes. */
  lemma {:induction false} BelowStays(gs: seq<Group>, n: nat, m: nat)
    requires n < m < |gs| && WholeGroup(gs, n)
    ensures |ApplyAll(gs[..m])| > Depth(gs, n) && ApplyAll(gs[..m])[..Depth(gs, n)] == ApplyAll(gs[..n])
  {
    hide ApplyAll, Apply, Depth;
    DepthOfStack(gs, n);
    DepthOfStack(gs, m);
    ApplyNext(gs, m - 1);
    var before := ApplyAll(gs[..m - 1]);
    if m - 1 > n {
      BelowStays(gs, n, m - 1);
      AppliesAbove(before, gs[m - 1], Depth(gs, n));
    } else {
      AppliesIf(before, gs[n]);
    }
  }

  lemma AppliesIf(st: seq<Frame>, g: Group)
    requires g.If?
    ensures |Apply(st, g)| == |st| + 1 && Apply(st, g)[..|st|] == st
  {
  }

  lemma AppliesAbove(st: seq<Frame>, g: Group, d: nat)
    requires d < |st|
    ensures d <= |Apply(st, g)| && Apply(st, g)[..d] == st[..d]
  {
  }

  /** After the #endif of a group the stack is as it was before the group. */
  lemma GroupLeavesStack(gs: seq<Group>, n: nat)
    requires n <= |gs| && WholeGroup(gs, n)
    ensures ApplyAll(gs) == ApplyAll(gs[..n])
  {
    hide ApplyAll, Apply, Depth;
    var m, d := |gs| - 1, Depth(gs, n);
    assert gs[..m + 1] == gs;
    DepthNext(gs, n);
    BelowStays(gs, n, m);
    ApplyNext(gs, m);
    AppliesAbove(ApplyAll(gs[..m]), gs[m], d);
    DepthOfStack(gs, m + 1);
    DepthOfStack(gs, n);
    assert ApplyAll(gs)[..d] == ApplyAll(gs);
  }

  lemma {:induction false} ShallowBefore(gs: seq<Group>, n: nat)
    requires n <= |gs| && Shallow(gs)
    ensures Shallow(gs[..n])
  {
    if n < |gs| {
      assert gs[..|gs| - 1][..n] == gs[..n];
      ShallowBefore(gs[..|gs| - 1], n);
    } else {
      assert gs[..n] == gs;
    }
  }

  lemma SameLevels(c: Levels, c': Levels, st: seq<Frame>, f: nat, f': nat)
    requires Represents(c, st, f) && Represents(c', st, f')
    ensures c == c'
  {
    assert f < |st| ==> !st[f].open;
    assert f' < |st| ==> !st[f'].open;
    assert c.seen == c'.seen;
  }

  /** A whole group, with any groups nested in it, leaves level, skip mark and mask as they were. */
  lemma GroupLeavesLevels(gs: seq<Group>, n: nat)
    requires n <= |gs| && WholeGroup(gs, n) && Shallow(gs)
    ensures ExecAll(START, gs) == ExecAll(START, gs[..n])
  {
    hide Represents;
    GroupLeavesStack(gs, n);
    ShallowBefore(gs, n);
    var f := RunRefines(gs);
    var f' := RunRefines(gs[..n]);
    SameLevels(ExecAll(START, gs).levels, ExecAll(START, gs[..n]).levels, ApplyAll(gs), f, f');
  }
}
