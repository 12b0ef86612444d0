/** What holds in every run of nested calls: whom callbacks see, and how long frames live. */
module CallFacts {
  import opened Options
  import opened Calls

  /** The frames made and not freed. */
  ghost function Live(log: seq<Event>): set<nat> {
    if log == [] then {}
    else
      var before, e := Live(log[..|log| - 1]), log[|log| - 1];
      if e.Init? then before + {e.frame} else if e.Freed? then before - {e.frame} else before
  }

  ghost function Made(log: seq<Event>): set<nat> {
    if log == [] then {}
    else
      var before, e := Made(log[..|log| - 1]), log[|log| - 1];
      if e.Init? then before + {e.frame} else before
  }

  /** The foreign calls under way, the innermost one last. */
  ghost function Active(log: seq<Event>): seq<(Impl, nat)> {
    if log == [] then []
    else
      var before, e := Active(log[..|log| - 1]), log[|log| - 1];
      if e.Entered? then before + [(e.impl, e.frame)]
      else if e.Left? && before != [] then before[..|before| - 1] else before
  }

  /** The frame of the innermost call of an implementation. */
  ghost function Innermost(active: seq<(Impl, nat)>, id: nat): Option<nat> {
    if active == [] then None
    else
      var last := active[|active| - 1];
      if last.0 == Impl(id) then Some(last.1) else Innermost(active[..|active| - 1], id)
  }

  /** Where the code around a call may call or be called back: while arguments are read, after they were let in,
      in the foreign function, and while things are freed. */
  predicate Nests(e: Event) {
    e.Init? || e.Entered? || (e.Runs? && (e.phase == Let || e.phase == Free))
  }

  /** The newest frame that lives is at such a place. */
  ghost predicate Ready(log: seq<Event>) {
    forall f :: Newest(log, f) ==> Own(log, f) != [] && Nests(Own(log, f)[|Own(log, f)| - 1])
  }

  ghost predicate Newest(log: seq<Event>, f: nat) {
    f in Live(log) && forall g :: g in Live(log) ==> g <= f
  }

  /** Calls are nested only where they may be; frames are made once and used only while they live; calls end
      innermost first; a callback sees the innermost call of its implementation. */
  ghost predicate Allowed(before: seq<Event>, e: Event) {
    if e.Init? then e.frame !in Made(before) && Ready(before)
    else
      && e.frame in Live(before)
      && (e.Left? ==> Active(before) != [] && Active(before)[|Active(before)| - 1].1 == e.frame)
      && (e.Sees? ==> Innermost(Active(before), e.id) == Some(e.frame) && Ready(before))
  }

  ghost predicate Orderly(log: seq<Event>) {
    log == [] || (Orderly(log[..|log| - 1]) && Allowed(log[..|log| - 1], log[|log| - 1]))
  }

  /** The events of one frame, apart from being seen. */
  ghost function Own(log: seq<Event>, f: nat): seq<Event> {
    if log == [] then []
    else
      var before, e := Own(log[..|log| - 1], f), log[|log| - 1];
      if e.frame == f && !e.Sees? then before + [e] else before
  }

  lemma LogLast(log: seq<Event>, e: Event)
    ensures Live(log + [e]) == if e.Init? then Live(log) + {e.frame} else if e.Freed? then Live(log) - {e.frame}
                                                                          else Live(log)
    ensures Made(log + [e]) == if e.Init? then Made(log) + {e.frame} else Made(log)
    ensures Active(log + [e]) == if e.Entered? then Active(log) + [(e.impl, e.frame)]
                                 else if e.Left? && Active(log) != [] then Active(log)[..|Active(log)| - 1]
                                      else Active(log)
    ensures forall f :: Own(log + [e], f) == if e.frame == f && !e.Sees? then Own(log, f) + [e] else Own(log, f)
    ensures Orderly(log + [e]) <==> Orderly(log) && Allowed(log, e)
  {
    assert (log + [e])[..|log|] == log;
  }

  // ----- the invariant of all runs -----

  /** `env` holds the innermost call of each implementation, and all its frames live. */
  ghost predicate Reflects(env: map<nat, nat>, log: seq<Event>) {
    && (forall id :: id in env ==> env[id] in Live(log) && Innermost(Active(log), id) == Some(env[id]))
    && forall id :: id !in env ==> Innermost(Active(log), id) == None
  }

  ghost predicate Numbered(r: Run) {
    forall f :: f in Made(r.log) || f in Live(r.log) ==> f < r.next
  }

  ghost predicate Good(r: Run, env: map<nat, nat>) {
    r.ok && Orderly(r.log) && Numbered(r) && Reflects(env, r.log)
  }

  /** What a part of a run that begins in `r` and ends in `s` keeps. */
  ghost predicate Keeps(r: Run, s: Run) {
    && Orderly(s.log) && r.next <= s.next
    && (s.ok ==> Numbered(s) && Live(s.log) == Live(r.log) && Active(s.log) == Active(r.log)
                 && forall f: nat :: f < r.next ==> Own(s.log, f) == Own(r.log, f))
  }

  /** Two moments of a run at which the same frames live and the same calls are under way. */
  ghost predicate Same(a: seq<Event>, b: seq<Event>) {
    Live(a) == Live(b) && Active(a) == Active(b)
  }

  lemma KeepsTrans(r: Run, s: Run, u: Run)
    requires Keeps(r, s) && s.ok && Keeps(s, u)
    ensures Keeps(r, u)
  {
  }

  lemma GoodAfter(r: Run, s: Run, env: map<nat, nat>)
    requires Good(r, env) && Keeps(r, s) && s.ok
    ensures Good(s, env)
  {
  }

  /** A frame runs one of its phases. */
  lemma RunsGood(r: Run, env: map<nat, nat>, f: nat, phase: Phase)
    requires Good(r, env) && f in Live(r.log)
    ensures var s := Noted(r, Runs(f, phase));
            && Good(s, env) && Same(s.log, r.log)
            && forall g :: Own(s.log, g) == if g == f then Own(r.log, g) + [Runs(f, phase)] else Own(r.log, g)
  {
    LogLast(r.log, Runs(f, phase));
  }

  /** What is nested in a call leaves it where it was. */
  lemma ReadyAfter(r: Run, s: Run, env: map<nat, nat>)
    requires Good(r, env) && Ready(r.log) && Keeps(r, s) && s.ok
    ensures Ready(s.log)
  {
    forall f: nat | Newest(s.log, f) ensures Own(s.log, f) != [] && Nests(Own(s.log, f)[|Own(s.log, f)| - 1]) {
      assert Newest(r.log, f) && f < r.next;
    }
  }

  lemma SeesGood(r: Run, env: map<nat, nat>, id: nat)
    requires Good(r, env) && id in env && Ready(r.log)
    ensures var s := Noted(r, Sees(id, env[id])); Good(s, env) && Keeps(r, s)
  {
    LogLast(r.log, Sees(id, env[id]));
  }

  lemma {:induction false} NothingBefore(log: seq<Event>, f: nat)
    requires Orderly(log) && f !in Made(log)
    ensures Own(log, f) == [] && f !in Live(log)
  {
    if log != [] {
      NothingBefore(log[..|log| - 1], f);
    }
  }

  lemma FrameGood(r: Run, env: map<nat, nat>)
    requires Good(r, env) && Ready(r.log)
    ensures var s := FrameMade(r);
            && Good(s, env) && Ready(s.log) && Live(s.log) == Live(r.log) + {r.next} && r.next !in Live(r.log)
            && Active(s.log) == Active(r.log)
            && (forall g :: Own(s.log, g) == if g == r.next then [Init(r.next)] else Own(r.log, g))
  {
    LogLast(r.log, Init(r.next));
    NothingBefore(r.log, r.next);
    forall f: nat | Newest(FrameMade(r).log, f) ensures f == r.next {
      assert r.next in Live(FrameMade(r).log);
    }
  }

  /** A foreign call begins. */
  lemma EnteredGood(r: Run, env: map<nat, nat>, impl: Impl, f: nat)
    requires Good(r, env) && Newest(r.log, f)
    ensures var s := Noted(r, Entered(impl, f));
            && Ready(s.log) && Good(s, if impl.Impl? then env[impl.id := f] else env) && Live(s.log) == Live(r.log)
            && Active(s.log) == Active(r.log) + [(impl, f)]
            && forall g :: Own(s.log, g) == if g == f then Own(r.log, g) + [Entered(impl, f)] else Own(r.log, g)
  {
    LogLast(r.log, Entered(impl, f));
    var active := Active(r.log);
    assert (active + [(impl, f)])[..|active|] == active;
  }

  /** And ends. */
  lemma LeftGood(r: Run, env: map<nat, nat>, inner: map<nat, nat>, s: Run, impl: Impl, f: nat)
    requires Good(r, env) && Good(s, inner) && f in Live(r.log) && Live(s.log) == Live(r.log)
    requires Active(s.log) == Active(r.log) + [(impl, f)]
    ensures var u := Noted(s, Left(f));
            && Good(u, env) && Same(u.log, r.log)
            && forall g :: Own(u.log, g) == if g == f then Own(s.log, g) + [Left(f)] else Own(s.log, g)
  {
    LogLast(s.log, Left(f));
  }

  lemma FreedGood(r: Run, env: map<nat, nat>, s: Run, f: nat)
    requires Good(r, env) && Good(s, env) && f in Live(s.log) && f !in Live(r.log) && Live(s.log) == Live(r.log) + {f}
    requires Active(s.log) == Active(r.log)
    ensures var u := Noted(s, Freed(f));
            && Good(u, env) && Same(u.log, r.log)
            && forall g :: Own(u.log, g) == if g == f then Own(s.log, g) + [Freed(f)] else Own(s.log, g)
  {
    LogLast(s.log, Freed(f));
  }

  lemma {:induction false} ScopedKeeps(s: Script, env: map<nat, nat>, r: Run)
    requires Good(r, env) && Ready(r.log)
    ensures Keeps(r, Scoped(s, env, r))
    decreases s, 2
  {
    hide Good, Reflects, Orderly, Numbered, Ready, ScopedCall, ScopedFree;
    KeepsSelf(r, env);
    match s
    case Done =>
    case Call(impl, parse, prepare, outcome, foreign, frees, rest) =>
      CallKeeps(s, env, r);
      RestKeeps(rest, env, r, ScopedCall(s, env, r));
    case Callback(impl, body, rest) =>
      if impl in env {
        var r1 := Noted(r, Sees(impl, env[impl]));
        SeesGood(r, env, impl);
        ReadyAfter(r, r1, env);
        ScopedKeeps(body, env, r1);
        var r2 := Scoped(body, env, r1);
        KeepsTrans(r, r1, r2);
        RestKeeps(rest, env, r, r2);
      }
    case FreeCall(foreign, rest) =>
      FreeKeeps(foreign, env, r);
      RestKeeps(rest, env, r, ScopedFree(foreign, env, r));
  }

  lemma KeepsSelf(r: Run, env: map<nat, nat>)
    requires Good(r, env)
    ensures r.ok && Keeps(r, r) && Keeps(r, r.(ok := false))
  {
  }

  lemma GoodKeeps(r: Run, s: Run, env: map<nat, nat>)
    requires Good(s, env) && Same(r.log, s.log) && r.next <= s.next
    requires forall f: nat :: f < r.next ==> Own(s.log, f) == Own(r.log, f)
    ensures Keeps(r, s)
  {
  }

  lemma {:induction false} RestKeeps(rest: Script, env: map<nat, nat>, r: Run, s: Run)
    requires Good(r, env) && Ready(r.log) && Keeps(r, s)
    ensures Keeps(r, Scoped(rest, env, s))
    decreases rest, 3
  {
    hide Good, Reflects, Orderly, Numbered, Ready;
    if s.ok {
      ReadyAfter(r, s, env);
      GoodAfter(r, s, env);
      ScopedKeeps(rest, env, s);
      KeepsTrans(r, s, Scoped(rest, env, s));
    }
  }

  lemma {:induction false} ForeignKeeps(foreign: Script, env: map<nat, nat>, r: Run, impl: Impl, f: nat)
    requires Good(r, env) && Newest(r.log, f) && f < r.next
    ensures var inner := if impl.Impl? then env[impl.id := f] else env;
            var s := Scoped(foreign, inner, Noted(r, Entered(impl, f)));
            if s.ok then var u := Noted(s, Left(f));
              && Good(u, env) && Same(u.log, r.log) && r.next <= u.next
              && forall g: nat :: g < r.next ==> Own(u.log, g) == if g ==
                  f then Own(r.log, g) + [Entered(impl, f), Left(f)] else Own(r.log, g)
            else Keeps(r, s)
    decreases foreign, 3
  {
    hide Good, Reflects, Orderly, Numbered, Ready, Scoped;
    var inner := if impl.Impl? then env[impl.id := f] else env;
    var r1 := Noted(r, Entered(impl, f));
    EnteredGood(r, env, impl, f);
    ScopedKeeps(foreign, inner, r1);
    var s := Scoped(foreign, inner, r1);
    if s.ok {
      GoodAfter(r1, s, inner);
      LeftGood(r, env, inner, s, impl, f);
    }
  }

  /** The life of the frame of a call that only frees something. */
  function FreeStory(f: nat): seq<Event> {
    [Init(f), Runs(f, Enter), Entered(NoImpl, f), Left(f), Freed(f)]
  }

  lemma {:induction false} FreeKeeps(foreign: Script, env: map<nat, nat>, r: Run)
    requires Good(r, env) && Ready(r.log)
    ensures var u := ScopedFree(foreign, env, r); Keeps(r, u) && (u.ok ==> Own(u.log, r.next) == FreeStory(r.next))
    decreases foreign, 5
  {
    hide UnderWay, Keeps, Scoped, Own, Good, Ready;
    var f := r.next;
    var r1 := FrameMade(r);
    UnderWayBegins(env, r);
    UnderWayRuns(env, r, r1, [Init(f)], Enter);
    var r2, own := Noted(r1, Runs(f, Enter)), [Init(f)] + [Runs(f, Enter)];
    UnderWayForeign(foreign, env, r, r2, own, NoImpl);
    var s := Scoped(foreign, env, Noted(r2, Entered(NoImpl, f)));
    if s.ok {
      UnderWayEnds(env, r, Noted(s, Left(f)), own + [Entered(NoImpl, f), Left(f)]);
      assert own + [Entered(NoImpl, f), Left(f)] + [Freed(f)] == FreeStory(f);
    }
  }

  /** The life of a call's frame, by how far the call gets. */
  function Story(outcome: Outcome, impl: nat, f: nat): seq<Event> {
    [Init(f)] +
    match outcome
    case BadArgs => [Freed(f)]
    case LetFails => [Runs(f, Enter), Runs(f, Let), Runs(f, Return), Freed(f)]
    case PreFails => [Runs(f, Enter), Runs(f, Let), Runs(f, Pre), Runs(f, Return), Freed(f)]
    case PostFails => [Runs(f, Enter), Runs(f, Let), Runs(f, Pre), Entered(Impl(impl), f), Left(f), Runs(f, Post),
        Runs(f, Return), Freed(f)]
    case Succeeds =>
      [Runs(f, Enter), Runs(f, Let), Runs(f, Pre), Entered(Impl(impl), f), Left(f), Runs(f, Post), Runs(f, Return),
       Runs(f, Set), Runs(f, Free), Freed(f)]
  }

  /** A call, from `r` to `u`, has ended: its frame, which did not exist before, has lived and is gone. */
  ghost predicate CallTold(s: Script, env: map<nat, nat>, r: Run, u: Run)
    requires s.Call?
  {
    Keeps(r, u) && (u.ok ==> Own(u.log, r.next) == Story(s.outcome, s.impl, r.next))
  }

  /** The call from `r` on is under way at `s`; the events of its frame so far are `own`. */
  ghost predicate UnderWay(env: map<nat, nat>, r: Run, s: Run, own: seq<Event>) {
    && Good(r, env) && Good(s, env) && r.next < s.next
    && r.next in Live(s.log) && r.next !in Live(r.log) && Live(s.log) == Live(r.log) + {r.next}
    && Active(s.log) == Active(r.log)
    && Own(s.log, r.next) == own && forall g: nat :: g < r.next ==> Own(s.log, g) == Own(r.log, g)
  }

  lemma UnderWayBegins(env: map<nat, nat>, r: Run)
    requires Good(r, env) && Ready(r.log)
    ensures UnderWay(env, r, FrameMade(r), [Init(r.next)]) && Ready(FrameMade(r).log)
  {
    hide Reflects, Orderly, Numbered;
    FrameGood(r, env);
  }

  lemma UnderWayRuns(env: map<nat, nat>, r: Run, s: Run, own: seq<Event>, phase: Phase)
    requires UnderWay(env, r, s, own)
    ensures UnderWay(env, r, Noted(s, Runs(r.next, phase)), own + [Runs(r.next, phase)])
  {
    hide Good;
    RunsGood(s, env, r.next, phase);
  }

  lemma UnderWayKeeps(env: map<nat, nat>, r: Run, s: Run, own: seq<Event>, u: Run)
    requires UnderWay(env, r, s, own) && Keeps(s, u)
    ensures if u.ok then UnderWay(env, r, u, own) else Keeps(r, u)
  {
    if u.ok {
      GoodAfter(s, u, env);
    }
    hide Good;
  }

  lemma UnderWayEnds(env: map<nat, nat>, r: Run, s: Run, own: seq<Event>)
    requires UnderWay(env, r, s, own)
    ensures var u := Noted(s, Freed(r.next)); Keeps(r, u) && u.ok && Own(u.log, r.next) == own + [Freed(r.next)]
  {
    hide Good;
    FreedGood(r, env, s, r.next);
    GoodKeeps(r, Noted(s, Freed(r.next)), env);
    assert Good(Noted(s, Freed(r.next)), env);
    KeepsSelf(s, env);
  }

  lemma {:induction false} CallKeeps(s: Script, env: map<nat, nat>, r: Run)
    requires s.Call? && Good(r, env) && Ready(r.log)
    ensures CallTold(s, env, r, ScopedCall(s, env, r))
    decreases s, 1
  {
    hide Reflects, Orderly, Numbered, Ready, Scoped, Checked;
    var f := r.next;
    UnderWayBegins(env, r);
    ScopedKeeps(s.parse, env, FrameMade(r));
    var r1 := Scoped(s.parse, env, FrameMade(r));
    UnderWayKeeps(env, r, FrameMade(r), [Init(f)], r1);
    if r1.ok {
      if s.outcome == BadArgs {
        UnderWayEnds(env, r, r1, [Init(f)]);
      } else {
        UnderWayRuns(env, r, r1, [Init(f)], Enter);
        UnderWayRuns(env, r, Noted(r1, Runs(f, Enter)), [Init(f)] + [Runs(f, Enter)], Let);
        var r2, own := Noted(Noted(r1, Runs(f, Enter)), Runs(f, Let)), [Init(f), Runs(f, Enter), Runs(f, Let)];
        assert [Init(f)] + [Runs(f, Enter)] + [Runs(f, Let)] == own;
        UnderWayGood(env, r, r2, own);
        UnderWayReady(env, r, r2, own);
        ScopedKeeps(s.prepare, env, r2);
        var r3 := Scoped(s.prepare, env, r2);
        UnderWayKeeps(env, r, r2, own, r3);
        if r3.ok {
          CheckedKeeps(s, env, r, r3);
        }
      }
    }
  }

  lemma {:induction false} CheckedKeeps(s: Script, env: map<nat, nat>, r: Run, begun: Run)
    requires s.Call? && s.outcome != BadArgs
    requires UnderWay(env, r, begun, [Init(r.next), Runs(r.next, Enter), Runs(r.next, Let)])
    ensures CallTold(s, env, r, Checked(s, env, r.next, begun))
    decreases s, 0
  {
    hide UnderWay, Keeps, Scoped, Own;
    var f := r.next;
    var own := [Init(f), Runs(f, Enter), Runs(f, Let)];
    if s.outcome == LetFails {
      UnderWayRuns(env, r, begun, own, Return);
      UnderWayEnds(env, r, Noted(begun, Runs(f, Return)), own + [Runs(f, Return)]);
    } else {
      UnderWayRuns(env, r, begun, own, Pre);
      var r1, own1 := Noted(begun, Runs(f, Pre)), own + [Runs(f, Pre)];
      if s.outcome == PreFails {
        UnderWayRuns(env, r, r1, own1, Return);
        UnderWayEnds(env, r, Noted(r1, Runs(f, Return)), own1 + [Runs(f, Return)]);
      } else {
        UnderWayForeign(s.foreign, env, r, r1, own1, Impl(s.impl));
        var r2 := Scoped(s.foreign, env[s.impl := f], Noted(r1, Entered(Impl(s.impl), f)));
        if r2.ok {
          AfterwardsKeeps(s, env, r, Noted(r2, Left(f)));
        }
      }
    }
  }

  lemma {:induction false} UnderWayForeign(foreign: Script, env: map<nat, nat>, r: Run, s: Run, own: seq<Event>,
                                           impl: Impl)
    requires UnderWay(env, r, s, own)
    ensures var inner := if impl.Impl? then env[impl.id := r.next] else env;
            var u := Scoped(foreign, inner, Noted(s, Entered(impl, r.next)));
            if u.ok then UnderWay(env, r, Noted(u, Left(r.next)), own + [Entered(impl, r.next), Left(r.next)])
            else Keeps(r, u)
    decreases foreign, 4
  {
    hide Good, Scoped, Orderly, Reflects;
    UnderWayNewest(env, r, s, own);
    ForeignKeeps(foreign, env, s, impl, r.next);
  }

  lemma {:induction false} AfterwardsKeeps(s: Script, env: map<nat, nat>, r: Run, left: Run)
    requires s.Call? && s.outcome in {PostFails, Succeeds}
    requires var f := r.next;
             UnderWay(env, r, left, [Init(f), Runs(f, Enter), Runs(f, Let)] + [Runs(f,
                 Pre)] + [Entered(Impl(s.impl), f), Left(f)])
    ensures var f := r.next;
            var r3 := Noted(Noted(left, Runs(f, Post)), Runs(f, Return));
            if s.outcome == PostFails then CallTold(s, env, r, Noted(r3, Freed(f)))
            else var r4 := Scoped(s.frees, env, Noted(Noted(r3, Runs(f, Set)), Runs(f, Free)));
              CallTold(s, env, r, if r4.ok then Noted(r4, Freed(f)) else r4)
    decreases s.frees, 3
  {
    hide UnderWay, Keeps, Scoped, Own;
    var f := r.next;
    var own := [Init(f), Runs(f, Enter), Runs(f, Let)] + [Runs(f, Pre)] + [Entered(Impl(s.impl), f), Left(f)];
    UnderWayRuns(env, r, left, own, Post);
    var r3, own3 := Noted(Noted(left, Runs(f, Post)), Runs(f, Return)), own + [Runs(f, Post)] + [Runs(f, Return)];
    UnderWayRuns(env, r, Noted(left, Runs(f, Post)), own + [Runs(f, Post)], Return);
    if s.outcome == PostFails {
      UnderWayEnds(env, r, r3, own3);
    } else {
      UnderWayRuns(env, r, r3, own3, Set);
      var r5, own5 := Noted(Noted(r3, Runs(f, Set)), Runs(f, Free)), own3 + [Runs(f, Set)] + [Runs(f, Free)];
      UnderWayRuns(env, r, Noted(r3, Runs(f, Set)), own3 + [Runs(f, Set)], Free);
      UnderWayGood(env, r, r5, own5);
      UnderWayReady(env, r, r5, own5);
      ScopedKeeps(s.frees, env, r5);
      var r4 := Scoped(s.frees, env, r5);
      UnderWayKeeps(env, r, r5, own5, r4);
      if r4.ok {
        UnderWayEnds(env, r, r4, own5);
      }
    }
  }

  lemma UnderWayGood(env: map<nat, nat>, r: Run, s: Run, own: seq<Event>)
    requires UnderWay(env, r, s, own)
    ensures Good(s, env)
  {
  }

  lemma UnderWayNewest(env: map<nat, nat>, r: Run, s: Run, own: seq<Event>)
    requires UnderWay(env, r, s, own)
    ensures Newest(s.log, r.next)
  {
  }

  lemma UnderWayReady(env: map<nat, nat>, r: Run, s: Run, own: seq<Event>)
    requires UnderWay(env, r, s, own) && own != [] && Nests(own[|own| - 1])
    ensures Ready(s.log)
  {
    UnderWayNewest(env, r, s, own);
  }

  // ----- whole runs -----

  /** From the start: whatever is called and called back, frames are used only while they live, and
      each callback sees the innermost call of its implementation; at the end no frame is left. */
  lemma WholeRun(s: Script)
    ensures var r := Scoped(s, map[], Run([], 0, true));
            Orderly(r.log) && (r.ok ==> Live(r.log) == {} && Active(r.log) == [])
  {
    ScopedKeeps(s, map[], Run([], 0, true));
  }

  function Times(log: seq<Event>, e: Event): nat {
    if log == [] then 0 else Times(log[..|log| - 1], e) + if log[|log| - 1] == e then 1 else 0
  }

  /** A frame is made at most once, and freed once if it was made and does not live any more. */
  lemma {:induction false} FreedOnce(log: seq<Event>, f: nat)
    requires Orderly(log)
    ensures Times(log, Init(f)) == if f in Made(log) then 1 else 0
    ensures Times(log, Freed(f)) == if f in Made(log) && f !in Live(log) then 1 else 0
    ensures Live(log) <= Made(log)
  {
    if log != [] {
      FreedOnce(log[..|log| - 1], f);
    }
  }

  /** Whether each callback is made within a call of its implementation, and no call's failure hides it. */
  predicate Covered(s: Script, running: set<nat>) {
    match s
    case Done => true
    case Call(impl, parse, prepare, outcome, foreign, frees, rest) =>
      && Covered(parse, running)
      && (outcome != BadArgs ==> Covered(prepare, running))
      && (outcome == PostFails || outcome == Succeeds ==> Covered(foreign, running + {impl}))
      && (outcome == Succeeds ==> Covered(frees, running))
      && Covered(rest, running)
    case Callback(impl, body, rest) => impl in running && Covered(body, running) && Covered(rest, running)
    case FreeCall(foreign, rest) => Covered(foreign, running) && Covered(rest, running)
  }

  /** The assertion in the closure never fails exactly if all callbacks are made that way. */
  lemma {:induction false} AssertionHolds(s: Script, env: map<nat, nat>, r: Run)
    requires r.ok
    ensures Scoped(s, env, r).ok <==> Covered(s, env.Keys)
    decreases s
  {
    match s
    case Done =>
    case Call(impl, parse, prepare, outcome, foreign, frees, rest) =>
      AssertionHoldsInCall(s, env, r);
      var r1 := ScopedCall(s, env, r);
      if r1.ok {
        AssertionHolds(rest, env, r1);
      }
    case Callback(impl, body, rest) =>
      if impl in env {
        var r1 := Noted(r, Sees(impl, env[impl]));
        AssertionHolds(body, env, r1);
        if Scoped(body, env, r1).ok {
          AssertionHolds(rest, env, Scoped(body, env, r1));
        }
      }
    case FreeCall(foreign, rest) =>
      AssertionHolds(foreign, env, Noted(Noted(FrameMade(r), Runs(r.next, Enter)), Entered(NoImpl, r.next)));
      var r1 := ScopedFree(foreign, env, r);
      if r1.ok {
        AssertionHolds(rest, env, r1);
      }
  }

  lemma {:induction false} AssertionHoldsInCall(s: Script, env: map<nat, nat>, r: Run)
    requires s.Call? && r.ok
    ensures ScopedCall(s, env, r).ok <==>
            && Covered(s.parse, env.Keys)
            && (s.outcome != BadArgs ==> Covered(s.prepare, env.Keys))
            && (s.outcome == PostFails || s.outcome == Succeeds ==> Covered(s.foreign, env.Keys + {s.impl}))
            && (s.outcome == Succeeds ==> Covered(s.frees, env.Keys))
    decreases s, 0
  {
    var f := r.next;
    AssertionHolds(s.parse, env, FrameMade(r));
    var parsed := Scoped(s.parse, env, FrameMade(r));
    if !parsed.ok || s.outcome == BadArgs {
      return;
    }
    AssertionHolds(s.prepare, env, Noted(Noted(parsed, Runs(f, Enter)), Runs(f, Let)));
    var r1 := Scoped(s.prepare, env, Noted(Noted(parsed, Runs(f, Enter)), Runs(f, Let)));
    if r1.ok && (s.outcome == PostFails || s.outcome == Succeeds) {
      var begun := Noted(Noted(r1, Runs(f, Pre)), Entered(Impl(s.impl), f));
      AssertionHolds(s.foreign, env[s.impl := f], begun);
      assert env[s.impl := f].Keys == env.Keys + {s.impl};
      var r2 := Scoped(s.foreign, env[s.impl := f], begun);
      if r2.ok && s.outcome == Succeeds {
        AssertionHolds(s.frees, env, Noted(Noted(Noted(Noted(Noted(r2, Left(f)), Runs(f, Post)), Runs(f, Return)),
            Runs(f, Set)), Runs(f, Free)));
      }
    }
  }

  // ----- nothing is left out -----

  /** How many calls and callbacks a script comes to, by how far its calls get. */
  datatype Tally = Tally(calls: nat, callbacks: nat)

  function Both(a: Tally, b: Tally): Tally {
    Tally(a.calls + b.calls, a.callbacks + b.callbacks)
  }

  function Happens(s: Script): Tally
    decreases s, 2
  {
    match s
    case Done => Tally(0, 0)
    case Call(_, _, _, _, _, _, rest) => Both(HappensInCall(s), Happens(rest))
    case Callback(impl, body, rest) => Both(Both(Tally(0, 1), Happens(body)), Happens(rest))
    case FreeCall(foreign, rest) => Both(Both(Tally(1, 0), Happens(foreign)), Happens(rest))
  }

  function HappensInCall(s: Script): Tally
    requires s.Call?
    decreases s, 1
  {
    var parsed := Both(Tally(1, 0), Happens(s.parse));
    if s.outcome == BadArgs then parsed else Both(Both(parsed, Happens(s.prepare)), HappensChecked(s))
  }

  function HappensChecked(s: Script): Tally
    requires s.Call?
    decreases s, 0
  {
    if s.outcome == PostFails then Happens(s.foreign)
    else if s.outcome == Succeeds then Both(Happens(s.foreign), Happens(s.frees)) else Tally(0, 0)
  }

  lemma BothAssociates()
    ensures forall a, b, c :: Both(Both(a, b), c) == Both(a, Both(b, c))
    ensures forall a :: Both(a, Tally(0, 0)) == a
  {
  }

  function Seen(log: seq<Event>): nat {
    if log == [] then 0 else Seen(log[..|log| - 1]) + if log[|log| - 1].Sees? then 1 else 0
  }

  /** The frames made and the callbacks seen so far. */
  function Count(r: Run): Tally {
    Tally(r.next, Seen(r.log))
  }

  lemma CountEvent(r: Run, e: Event)
    ensures Noted(r, e).ok == r.ok
    ensures Count(Noted(r, e)) == if e.Sees? then Both(Count(r), Tally(0, 1)) else Count(r)
  {
    assert (r.log + [e])[..|r.log|] == r.log;
  }

  lemma CountFrame(r: Run)
    ensures FrameMade(r).ok == r.ok && Count(FrameMade(r)) == Both(Count(r), Tally(1, 0))
  {
    assert (r.log + [Init(r.next)])[..|r.log|] == r.log;
  }

  /** Where no assertion fails every call is made, with a frame of its own, and every callback is seen. */
  lemma {:induction false} AllHappens(s: Script, env: map<nat, nat>, r: Run)
    requires r.ok
    ensures var u := Scoped(s, env, r); u.ok ==> Count(u) == Both(Count(r), Happens(s))
    decreases s, 2
  {
    hide Count, HappensInCall, Noted, FrameMade, ScopedCall, Both;
    BothAssociates();
    match s
    case Done =>
    case Call(impl, parse, prepare, outcome, foreign, frees, rest) =>
      AllHappensInCall(s, env, r);
      var r1 := ScopedCall(s, env, r);
      if r1.ok {
        AllHappens(rest, env, r1);
      }
    case Callback(impl, body, rest) =>
      if impl in env {
        var r1 := Noted(r, Sees(impl, env[impl]));
        CountEvent(r, Sees(impl, env[impl]));
        AllHappens(body, env, r1);
        if Scoped(body, env, r1).ok {
          AllHappens(rest, env, Scoped(body, env, r1));
        }
      }
    case FreeCall(foreign, rest) =>
      AllHappensInFree(foreign, env, r);
      var r1 := ScopedFree(foreign, env, r);
      if r1.ok {
        AllHappens(rest, env, r1);
      }
  }

  lemma {:induction false} AllHappensInFree(foreign: Script, env: map<nat, nat>, r: Run)
    requires r.ok
    ensures var u := ScopedFree(foreign, env, r);
            u.ok ==> Count(u) == Both(Count(r), Both(Tally(1, 0), Happens(foreign)))
    decreases foreign, 3
  {
    hide Count, Happens, Noted, FrameMade, Scoped, Both;
    BothAssociates();
    CountFrame(r);
    CountTwo(FrameMade(r), Runs(r.next, Enter), Entered(NoImpl, r.next));
    var r1 := Noted(Noted(FrameMade(r), Runs(r.next, Enter)), Entered(NoImpl, r.next));
    AllHappens(foreign, env, r1);
    CountTwo(Scoped(foreign, env, r1), Left(r.next), Freed(r.next));
  }

  lemma {:induction false} AllHappensInCall(s: Script, env: map<nat, nat>, r: Run)
    requires s.Call? && r.ok
    ensures var u := ScopedCall(s, env, r); u.ok ==> Count(u) == Both(Count(r), HappensInCall(s))
    decreases s, 1
  {
    hide Count, Happens, Scoped, Noted, FrameMade, Checked, Both, HappensChecked;
    BothAssociates();
    var f := r.next;
    CountFrame(r);
    AllHappens(s.parse, env, FrameMade(r));
    var r1 := Scoped(s.parse, env, FrameMade(r));
    if r1.ok {
      if s.outcome == BadArgs {
        CountEvent(r1, Freed(f));
      } else {
        CountTwo(r1, Runs(f, Enter), Runs(f, Let));
        var r2 := Noted(Noted(r1, Runs(f, Enter)), Runs(f, Let));
        AllHappens(s.prepare, env, r2);
        if Scoped(s.prepare, env, r2).ok {
          AllHappensChecked(s, env, f, Scoped(s.prepare, env, r2));
        }
      }
    }
  }

  lemma {:induction false} AllHappensChecked(s: Script, env: map<nat, nat>, f: nat, r: Run)
    requires s.Call? && s.outcome != BadArgs && r.ok
    ensures var u := Checked(s, env, f, r); u.ok ==> Count(u) == Both(Count(r), HappensChecked(s))
    decreases s, 0
  {
    hide Count, Happens, Scoped, Noted, Both;
    BothAssociates();
    if s.outcome == LetFails {
      CountTwo(r, Runs(f, Return), Freed(f));
    } else {
      CountEvent(r, Runs(f, Pre));
      var r1 := Noted(r, Runs(f, Pre));
      if s.outcome == PreFails {
        CountTwo(r1, Runs(f, Return), Freed(f));
      } else {
        CountEvent(r1, Entered(Impl(s.impl), f));
        var r2 := Noted(r1, Entered(Impl(s.impl), f));
        AllHappens(s.foreign, env[s.impl := f], r2);
        var r3 := Scoped(s.foreign, env[s.impl := f], r2);
        CountEvent(r3, Left(f));
        CountTwo(Noted(r3, Left(f)), Runs(f, Post), Runs(f, Return));
        var r4 := Noted(Noted(Noted(r3, Left(f)), Runs(f, Post)), Runs(f, Return));
        CountEvent(r4, Freed(f));
        CountTwo(r4, Runs(f, Set), Runs(f, Free));
        var r5 := Noted(Noted(r4, Runs(f, Set)), Runs(f, Free));
        if r3.ok && s.outcome == Succeeds {
          AllHappens(s.frees, env, r5);
          CountEvent(Scoped(s.frees, env, r5), Freed(f));
        }
      }
    }
  }

  lemma CountTwo(r: Run, e: Event, e': Event)
    requires !e.Sees? && !e'.Sees?
    ensures Noted(Noted(r, e), e').ok == r.ok && Count(Noted(Noted(r, e), e')) == Count(r)
  {
    hide Count, Noted;
    CountEvent(r, e);
    CountEvent(Noted(r, e), e');
  }
}
