/** What holds in every run of stage 2: what the parser gets, and that the outcome is determined. */
module StageTwoFacts {
  import opened Options
  import opened Tokens
  import opened Expansion
  import opened Replacing
  import opened StageTwo
  import opened StageTwoRuns
  import Conditionals

  // ----- directives -----

  lemma {:induction false} RunCollects(env: Env, run: Run)
    requires IsRun(env, run)
    ensures Collected(Last(run).scan, Last(run).pending)
  {
    match run
    case Begin(_) =>
    case Then(before, how, b) =>
      RunCollects(env, before);
      RoundCollects(env, Last(before), how, b);
  }

  lemma RoundCollects(env: Env, a: Snap, how: How, b: Snap)
    requires Round(env, a, how, b) && Collected(a.scan, a.pending)
    ensures Collected(b.scan, b.pending)
  {
    var t := a.tokens[a.index];
    CollectsDirectiveOrNot(a.scan, a.pending, t);
    hide Effect, ExpandsTo, Settled;
  }

  lemma CollectsDirectiveOrNot(scan: Scan, pending: seq<Token>, t: Token)
    requires Collected(scan, pending)
    ensures var s := Look(scan, t.lex.kind);
            && (s.doCpp && !s.isEol ==> Collected(s, pending + [t]))
            && (!s.doCpp ==> Collected(s, pending))
            && (t.lex.kind != Hash ==> Collected(s, pending))
  {
    if Look(scan, t.lex.kind).doCpp {
      CollectsDirective(scan, pending, t);
    }
    LookKeeps(scan, pending, t.lex.kind);
  }

  /** Every list the parser gets, at any depth of inclusion, begins with HASH and has its only line end last. */
  lemma {:induction false} HandsDirectives(env: Env, run: Run)
    requires IsRun(env, run) && Last(run).index < |Last(run).tokens| && Hands(Last(run))
    ensures IsDirective(Last(run).pending + [Last(run).tokens[Last(run).index]])
  {
    RunCollects(env, run);
    var a := Last(run);
    CollectsDirective(a.scan, a.pending, a.tokens[a.index]);
  }

  // ----- definitions -----

  /** The run as it was `n` rounds earlier. */
  function Earlier(run: Run, n: nat): Run {
    if n == 0 || run.Begin? then run else Earlier(run.before, n - 1)
  }

  function Rounds(run: Run): nat {
    match run
    case Begin(_) => 0
    case Then(before, _, _) => 1 + Rounds(before)
  }

  /** Inside of a definition: everything is taken as it is. */
  predicate Verbatim(s: Scan) {
    s.doCpp && s.skipAll && !s.doExpansion && !s.isEol
  }

  /** `n` tokens were moved to the directive. */
  predicate Took(a: Snap, n: nat, b: Snap) {
    && a.index + n <= |a.tokens| && b.scan.doCpp
    && b.pending == a.pending + a.tokens[a.index..a.index + n]
    && b.tokens == a.tokens[..a.index] + a.tokens[a.index + n..]
    && b.index == a.index && b.defs == a.defs && b.levels == a.levels && b.next == a.next && b.clock == a.clock
  }

  lemma VerbatimRound(env: Env, a: Snap, how: How, b: Snap)
    requires Round(env, a, how, b) && !a.tokens[a.index].Is(Eol) && a.index + 1 < |a.tokens|
    requires Verbatim(a.scan) || (Verbatim(Look(a.scan, a.tokens[a.index].lex.kind)))
    ensures how.Moved? && Took(a, 1, b) && Verbatim(b.scan)
  {
    hide Effect, ExpandsTo, Settled;
  }

  lemma TookMore(a: Snap, n: nat, b: Snap, c: Snap)
    requires Took(a, n, b) && Took(b, 1, c) && a.index + n < |a.tokens|
    ensures Took(a, n + 1, c)
  {
    var i, front, back := a.index, a.tokens[..a.index], a.tokens[a.index + n..];
    TakeFirst(front, back);
    assert back[0] == a.tokens[i + n] && back[1..] == a.tokens[i + n + 1..];
    assert a.tokens[i..i + n] + [a.tokens[i + n]] == a.tokens[i..i + n + 1];
  }

  lemma TakeFirst(front: seq<Token>, back: seq<Token>)
    requires back != []
    ensures var i, all := |front|, front + back;
            all[..i] == front && all[i..i + 1] == [back[0]] && all[i + 1..] == back[1..]
  {
  }

  /** The rounds from the beginning of a definition `# define ...` up to its line end: each takes one token. */
  lemma {:induction false} TakesDefinition(env: Env, run: Run, n: nat)
    requires IsRun(env, run) && n <= Rounds(run)
    requires var a := Last(Earlier(run, n));
             && a.scan.isEol && a.index + n < |a.tokens| && (n > 0 ==> a.tokens[a.index].Is(Hash))
             && (n > 1 ==> a.tokens[a.index + 1].Is(Define))
             && forall k :: a.index <= k < a.index + n ==> !a.tokens[k].Is(Eol)
    ensures n > 0 ==> Took(Last(Earlier(run, n)), n, Last(run))
    ensures n == 1 ==> !Last(run).scan.isEol
    ensures n > 1 ==> Verbatim(Last(run).scan)
  {
    if n > 0 {
      var a, b := Last(Earlier(run, n)), Last(run.before);
      TakesDefinition(env, run.before, n - 1);
      if n == 1 {
        HashRound(env, b, run.how, run.s);
      } else {
        assert b.tokens[b.index] == a.tokens[a.index + n - 1];
        VerbatimRound(env, b, run.how, run.s);
        TookMore(a, n - 1, b, run.s);
      }
    }
  }

  lemma HashRound(env: Env, a: Snap, how: How, b: Snap)
    requires Round(env, a, how, b) && a.scan.isEol && a.tokens[a.index].Is(Hash) && a.index + 1 < |a.tokens|
    ensures Took(a, 1, b) && b.scan.doCpp && !b.scan.isEol
  {
    hide Effect, ExpandsTo, Settled;
  }

  /** A definition reaches the parser token for token, with no macro in it expanded: once as many
      rounds were made as it has tokens up to its line end, all of them are pending, in order, and the
      parser gets them with the line end. */
  lemma DefinitionReachesParser(env: Env, run: Run, n: nat)
    requires IsRun(env, run) && 1 < n <= Rounds(run)
    requires var a := Last(Earlier(run, n));
             && a.scan.isEol && a.pending == [] && a.index + n < |a.tokens| && a.tokens[a.index].Is(Hash)
             && a.tokens[a.index + 1].Is(Define)
             && (forall k :: a.index <= k < a.index + n ==> !a.tokens[k].Is(Eol)) && a.tokens[a.index + n].Is(Eol)
    ensures var a, b := Last(Earlier(run, n)), Last(run);
            && b.index < |b.tokens| && Hands(b)
            && b.pending + [b.tokens[b.index]] == a.tokens[a.index..a.index + n + 1]
            && b.defs == a.defs
  {
    var a, b := Last(Earlier(run, n)), Last(run);
    TakesDefinition(env, run, n);
    assert b.tokens[b.index] == a.tokens[a.index + n];
    assert a.tokens[a.index..a.index + n] + [a.tokens[a.index + n]] == a.tokens[a.index..a.index + n + 1];
    hide Settled;
  }

  // ----- skipped text -----

  /** The #if directives executed in a run, those of included files in their place. */
  function Groups(run: Run): seq<Conditionals.Group> {
    match run
    case Begin(_) => []
    case Then(before, how, _) => Groups(before) + GroupsIn(how, Last(before).defs)
  }

  function GroupsIn(how: How, defs: Defs): seq<Conditionals.Group> {
    if how.Executed? then GroupsOf(how.d, defs) + (if how.sub.Some? then Groups(how.sub.value) else []) else []
  }

  /** `levels` is what `gs` lead to, none of which is nested too deep. */
  predicate LedTo(gs: seq<Conditionals.Group>, levels: Conditionals.Levels) {
    Conditionals.ExecAll(Conditionals.START, gs) == Conditionals.Outcome(levels, true)
  }

  lemma OneGroup(gs: seq<Conditionals.Group>, g: Conditionals.Group, levels: Conditionals.Levels)
    requires LedTo(gs, levels) && Conditionals.Exec(levels, g).ok
    ensures LedTo(gs + [g], Conditionals.Exec(levels, g).levels)
  {
    assert (gs + [g])[..|gs|] == gs;
  }

  lemma {:induction false} RunLevels(env: Env, run: Run, gs: seq<Conditionals.Group>)
    requires IsRun(env, run) && LedTo(gs, First(run).levels)
    ensures LedTo(gs + Groups(run), Last(run).levels)
    decreases run, 1
  {
    hide LedTo, Round;
    match run
    case Begin(_) =>
      assert gs + [] == gs;
    case Then(before, how, b) =>
      RunLevels(env, before, gs);
      RoundLevels(env, Last(before), how, b, gs + Groups(before));
      assert gs + (Groups(before) + GroupsIn(how, Last(before).defs)) ==
             gs + Groups(before) + GroupsIn(how, Last(before).defs);
  }

  lemma {:induction false} RoundLevels(env: Env, a: Snap, how: How, b: Snap, gs: seq<Conditionals.Group>)
    requires Round(env, a, how, b) && LedTo(gs, a.levels)
    ensures LedTo(gs + GroupsIn(how, a.defs), b.levels)
    decreases how, 0
  {
    hide LedTo, Effect, ExpandsTo, Settled;
    assert gs + [] == gs;
    if how.Executed? {
      EffectLevels(env, how.d, a.(clock := a.clock + 1), how.sub, b.(pending := a.pending, scan := a.scan), gs);
    }
  }

  lemma {:induction false} EffectLevels(env: Env, d: Directive, a: Snap, sub: Option<Run>, b: Snap,
                                        gs: seq<Conditionals.Group>)
    requires a.index <= |a.tokens| && Effect(env, d, a, sub, b) && LedTo(gs, a.levels)
    ensures LedTo(gs + (GroupsOf(d, a.defs) + if sub.Some? then Groups(sub.value) else []), b.levels)
    decreases sub, 1
  {
    hide LedTo, Inclusion, Enters, Conditionals.Exec;
    var none: seq<Conditionals.Group> := [];
    assert gs + (none + none) == gs;
    match d
    case Group(g) =>
      OneGroup(gs, g, a.levels);
      assert gs + ([g] + none) == gs + [g];
    case IfDefined(name, negated) =>
      var g := Conditionals.If((name in a.defs) != negated);
      OneGroup(gs, g, a.levels);
      assert gs + ([g] + none) == gs + [g];
    case IncludeFile(file) =>
      if a.levels.skip == 0 {
        InclusionLevels(env, file, a, sub, b);
        if sub.Some? {
          RunLevels(env, sub.value, gs);
          assert gs + (none + Groups(sub.value)) == gs + Groups(sub.value);
        }
      }
    case _ =>
  }

  lemma InclusionLevels(env: Env, file: Lexeme, a: Snap, sub: Option<Run>, b: Snap)
    requires a.index <= |a.tokens| && Inclusion(env, file, a, sub, b)
    ensures if sub.Some? then IsRun(env, sub.value) && First(sub.value).levels == a.levels
            && b.levels == Last(sub.value).levels else b.levels == a.levels
  {
    hide IsRun, Rejected, Enters;
    if env.open(a.clock + 1, file).Scanned? {
      InclusionEnters(env, file, a, sub, b);
      EntersRun(env, file, a, sub.value);
    }
  }

  /** In every run, whatever was executed before it, a token outside of directives is dropped exactly
      if it is a line end or some enclosing #if group is not in its chosen part. */
  lemma SkippedExactly(env: Env, run: Run, gs: seq<Conditionals.Group>)
    requires IsRun(env, run) && LedTo(gs, First(run).levels)
    requires var a := Last(run); a.index < |a.tokens| && !Look(a.scan, a.tokens[a.index].lex.kind).doCpp
    ensures var a := Last(run);
            Drops(a) <==> a.tokens[a.index].Is(Eol) || !Conditionals.Active(Conditionals.ApplyAll(gs + Groups(run)))
    ensures Conditionals.Shallow(gs + Groups(run))
  {
    hide IsRun, Look, Conditionals.Active, Conditionals.Shallow;
    RunLevels(env, run, gs);
    Conditionals.SkipsExactly(gs + Groups(run));
  }

  /** In every run an #if directive leaves defined behaviour exactly if it is nested too deep. */
  lemma TooDeepExactly(env: Env, run: Run, gs: seq<Conditionals.Group>, d: Directive)
    requires IsRun(env, run) && LedTo(gs, First(run).levels) && GroupsOf(d, Last(run).defs) != []
    ensures TooDeepAt(d, Last(run))
            <==> Conditionals.TooDeep(Conditionals.ApplyAll(gs + Groups(run)), GroupsOf(d, Last(run).defs)[0])
  {
    hide IsRun;
    RunLevels(env, run, gs);
    var all := gs + Groups(run);
    var f := Conditionals.RunRefines(all);
    var _ := Conditionals.ExecRefines(Last(run).levels, Conditionals.ApplyAll(all), f, GroupsOf(d, Last(run).defs)[0]);
  }

  // ----- the outcome is determined -----

  /** Nothing follows: the stream was scanned to its end, or the parser rejected a directive. */
  ghost predicate Ended(env: Env, a: Snap) {
    a.index >= |a.tokens| || Rejected(env, a)
  }

  lemma ExpansionAgrees(defs: Defs, p: Place, q1: Place, q2: Place, p': Place)
    requires ExpandsOnce(defs, p, q1) && ExpandsOnce(defs, p', q2) && p'.tokens == p.tokens && p'.index == p.index
    requires p'.next == p.next
    ensures q1.tokens == q2.tokens && q1.index == q2.index && q1.next == q2.next
  {
  }

  lemma {:induction false} ChainsAgree(defs: Defs, ps: seq<Place>, qs: seq<Place>)
    requires Chain(defs, ps) && Chain(defs, qs) && |ps| <= |qs|
    requires ps[0].tokens == qs[0].tokens && ps[0].index == qs[0].index && ps[0].next == qs[0].next
    ensures var p, q := ps[|ps| - 1], qs[|ps| - 1]; p.tokens == q.tokens && p.index == q.index && p.next == q.next
    decreases |qs|
  {
    hide ExpandsOnce;
    if |qs| > |ps| {
      ChainsAgree(defs, ps, qs[..|qs| - 1]);
    } else if |ps| > 1 {
      ChainsAgree(defs, ps[..|ps| - 1], qs[..|qs| - 1]);
      ExpansionAgrees(defs, ps[|ps| - 2], ps[|ps| - 1], qs[|ps| - 1], qs[|ps| - 2]);
    }
  }

  /** A chain goes on until nothing more is expanded, so that no other one gets further. */
  lemma {:induction false} ChainLonger(defs: Defs, ps: seq<Place>, qs: seq<Place>)
    requires Chain(defs, ps) && Chain(defs, qs) && Settled(ps[|ps| - 1].tokens, ps[|ps| - 1].index, defs)
    requires ps[0].tokens == qs[0].tokens && ps[0].index == qs[0].index && ps[0].next == qs[0].next
    ensures |qs| <= |ps|
    decreases |qs|
  {
    hide Settled;
    if |qs| > |ps| {
      ChainsAgree(defs, ps, qs);
      if |qs| > |ps| + 1 {
        ChainLonger(defs, ps, qs[..|qs| - 1]);
      } else {
        var q, q' := qs[|ps| - 1], qs[|ps|];
        SettledNotSubstituted(q.tokens, q.index, q.live, q.next, defs, q'.tokens, q'.index, q'.live, q'.next);
      }
    }
  }

  lemma ExpandsToAgrees(a: Snap, ps: seq<Place>, b: Snap, qs: seq<Place>, c: Snap)
    requires ExpandsTo(a, ps, b) && ExpandsTo(a, qs, c)
    ensures b.tokens == c.tokens && b.index == c.index && b.next == c.next && |ps| == |qs|
  {
    hide Settled;
    ChainLonger(a.defs, ps, qs);
    ChainLonger(a.defs, qs, ps);
    ChainsAgree(a.defs, ps, qs);
  }

  lemma {:induction false} RoundAgrees(env: Env, a: Snap, how: How, b: Snap, how': How, c: Snap)
    requires Round(env, a, how, b) && Round(env, a, how', c)
    ensures b == c && Extra(how) == Extra(how')
    decreases how
  {
    hide Effect, ExpandsTo, Settled;
    match how
    case Dropped =>
    case Moved =>
    case Advanced =>
    case Expanded(ps) =>
      ExpandsToAgrees(a, ps, b, how'.places, c);
    case Executed(d, sub) =>
      assert how'.Executed? && how'.d == d;
      EffectAgrees(env, d, a.(clock := a.clock + 1), sub, b.(pending := a.pending, scan := a.scan), how'.sub,
          c.(pending := a.pending, scan := a.scan));
  }

  lemma InclusionEnters(env: Env, file: Lexeme, a: Snap, sub: Option<Run>, b: Snap)
    requires a.index <= |a.tokens| && Inclusion(env, file, a, sub, b) && env.open(a.clock + 1, file).Scanned?
    ensures sub.Some? && Enters(env, file, a, sub.value) && Ended(env, Last(sub.value))
  {
    hide IsRun, Start, Enters, Rejected;
  }

  lemma EntersRun(env: Env, file: Lexeme, a: Snap, run: Run)
    requires Enters(env, file, a, run)
    ensures env.open(a.clock + 1, file).Scanned? && IsRun(env, run)
    ensures First(run) == Start(env.open(a.clock + 1, file).ls, a.(clock := a.clock + 1))
  {
    hide IsRun, Start;
  }

  lemma {:induction false} EffectAgrees(env: Env, d: Directive, a: Snap, sub: Option<Run>, b: Snap, sub': Option<Run>,
                                        c: Snap)
    requires a.index <= |a.tokens| && Effect(env, d, a, sub, b) && Effect(env, d, a, sub', c)
    ensures b == c && OfSub(sub) == OfSub(sub')
    decreases sub
  {
    hide IsRun, Rejected, Start, Enters;
    if d.IncludeFile? && a.levels.skip == 0 && env.open(a.clock + 1, d.file).Scanned? {
      InclusionEnters(env, d.file, a, sub, b);
      InclusionEnters(env, d.file, a, sub', c);
      EntersRun(env, d.file, a, sub.value);
      EntersRun(env, d.file, a, sub'.value);
      RunsAgree(env, sub.value, sub'.value);
    }
  }

  lemma {:induction false} SameLast(env: Env, run: Run, run': Run)
    requires IsRun(env, run) && IsRun(env, run') && First(run) == First(run') && Rounds(run) == Rounds(run')
    ensures Last(run) == Last(run') && Cost(run) == Cost(run')
    decreases run, 1
  {
    hide Round;
    if run.Then? {
      SameLast(env, run.before, run'.before);
      RoundAgrees(env, Last(run.before), run.how, run.s, run'.how, run'.s);
    }
  }

  lemma NoRoundAfter(env: Env, a: Snap, how: How, b: Snap)
    requires Round(env, a, how, b)
    ensures !Ended(env, a)
  {
    hide Settled, Effect, ExpandsTo;
  }

  lemma {:induction false} NoneLonger(env: Env, run: Run, run': Run)
    requires IsRun(env, run) && IsRun(env, run') && First(run) == First(run') && Ended(env, Last(run))
    ensures Rounds(run') <= Rounds(run)
    decreases run, 2, run'
  {
    hide Round, Ended;
    if run'.Then? {
      NoneLonger(env, run, run'.before);
      NoRoundAfter(env, Last(run'.before), run'.how, run'.s);
      if Rounds(run') > Rounds(run) {
        SameLast(env, run, run'.before);
      }
    }
  }

  lemma {:induction false} NoneShorter(env: Env, run: Run, run': Run)
    requires IsRun(env, run) && IsRun(env, run') && First(run) == First(run') && Ended(env, Last(run'))
    ensures Rounds(run) <= Rounds(run')
    decreases run, 2
  {
    hide Round, Ended;
    if run.Then? {
      NoneShorter(env, run.before, run');
      NoRoundAfter(env, Last(run.before), run.how, run.s);
      if Rounds(run) > Rounds(run') {
        SameLast(env, run.before, run');
      }
    }
  }

  /** Two runs from the same state that have both ended have ended in the same state. */
  lemma {:induction false} RunsAgree(env: Env, run: Run, run': Run)
    requires IsRun(env, run) && IsRun(env, run') && First(run) == First(run') && Ended(env, Last(run))
    requires Ended(env, Last(run'))
    ensures Last(run) == Last(run') && Price(run) == Price(run')
    decreases run, 3
  {
    hide IsRun;
    NoneLonger(env, run, run');
    NoneShorter(env, run, run');
    SameLast(env, run, run');
  }

  // ----- the verdict is determined -----

  /** A chain that ends where the source leaves defined behaviour is the longest one. */
  lemma {:induction false} NoneBeyondUndefined(defs: Defs, ps: seq<Place>, qs: seq<Place>)
    requires Chain(defs, ps) && Chain(defs, qs) && Undefined(ps[|ps| - 1].tokens, ps[|ps| - 1].index, defs)
    requires ps[0].tokens == qs[0].tokens && ps[0].index == qs[0].index && ps[0].next == qs[0].next
    ensures |qs| <= |ps|
    ensures |qs| == |ps| ==> !Settled(qs[|qs| - 1].tokens, qs[|qs| - 1].index, defs)
    decreases |qs|
  {
    hide Settled, Undefined;
    if |qs| >= |ps| {
      ChainsAgree(defs, ps, qs);
      var q := qs[|ps| - 1];
      if |qs| > |ps| + 1 {
        NoneBeyondUndefined(defs, ps, qs[..|qs| - 1]);
      } else {
        var q' := qs[|qs| - 1];
        UndefinedNotSubstituted(q.tokens, q.index, q.live, q.next, defs, q'.tokens, q'.index, q'.live, q'.next);
      }
    }
  }

  /** No round breaks off later than it ends, and one that ends does not leave defined behaviour. */
  lemma {:induction false} StopBound(env: Env, a: Snap, how: How, b: Snap, stop: Stop)
    requires Round(env, a, how, b) && Stops(env, a, stop)
    ensures StopCost(stop) <= 1 + Extra(how) && !Crashes(env, a, stop)
    decreases how
  {
    hide Effect, Settled, Chain, Undefined, Enters;
    match stop
    case AtRound =>
    case Expanding(ps) =>
      assert how.Expanded?;
      ExpansionBound(a, how.places, b, ps);
    case Executing(d) =>
      assert how.Executed? && how.d == d;
      NotTooDeep(env, d, a.(clock := a.clock + 1), how.sub, b.(pending := a.pending, scan := a.scan));
    case Including(d, sub, stop') =>
      assert how.Executed? && how.d == d;
      InclusionBound(env, d, a.(clock := a.clock + 1), how.sub, b.(pending := a.pending, scan := a.scan), sub, stop');
  }

  lemma NotTooDeep(env: Env, d: Directive, a: Snap, sub: Option<Run>, b: Snap)
    requires a.index <= |a.tokens| && Effect(env, d, a, sub, b)
    ensures !TooDeepAt(d, a)
  {
    hide Inclusion, Conditionals.Exec;
  }

  lemma ExpansionBound(a: Snap, qs: seq<Place>, b: Snap, ps: seq<Place>)
    requires ExpandsTo(a, qs, b) && Chain(a.defs, ps) && Begins(a, ps)
    ensures |ps| <= |qs| && !Undefined(ps[|ps| - 1].tokens, ps[|ps| - 1].index, a.defs)
  {
    hide Settled, Undefined, Chain;
    ChainLonger(a.defs, qs, ps);
    if Undefined(ps[|ps| - 1].tokens, ps[|ps| - 1].index, a.defs) {
      NoneBeyondUndefined(a.defs, ps, qs);
    }
  }

  lemma {:induction false} InclusionBound(env: Env, d: Directive, a: Snap, sub: Option<Run>, b: Snap, run: Run,
                                          stop: Stop)
    requires a.index <= |a.tokens| && Effect(env, d, a, sub, b) && d.IncludeFile? && a.levels.skip == 0
    requires Enters(env, d.file, a, run) && Stops(env, Last(run), stop)
    ensures Cost(run) + StopCost(stop) <= OfSub(sub) && !Crashes(env, Last(run), stop)
    decreases sub
  {
    hide IsRun, Rejected, Start, Stops, Crashes, Inclusion, Enters;
    EntersRun(env, d.file, a, run);
    InclusionEnters(env, d.file, a, sub, b);
    EntersRun(env, d.file, a, sub.value);
    EndsAfter(env, sub.value, run, stop);
  }

  /** A run with more rounds than `run` got past where that breaks off. */
  lemma {:induction false} Passed(env: Env, goal: Run, run: Run, stop: Stop)
    requires IsRun(env, goal) && IsRun(env, run) && First(goal) == First(run) && Rounds(goal) > Rounds(run)
    requires Stops(env, Last(run), stop)
    ensures Cost(run) + StopCost(stop) <= Cost(goal) && !Crashes(env, Last(run), stop)
    decreases goal, 1
  {
    hide Round, Stops, Crashes;
    if Rounds(goal) == Rounds(run) + 1 {
      SameLast(env, goal.before, run);
      StopBound(env, Last(run), goal.how, goal.s, stop);
    } else {
      Passed(env, goal.before, run, stop);
    }
  }

  /** Where nothing follows no round breaks off later. */
  lemma EndedBound(env: Env, a: Snap, stop: Stop)
    requires Ended(env, a) && Stops(env, a, stop)
    ensures a.index < |a.tokens| && StopCost(stop) == 1 && !Crashes(env, a, stop)
  {
    hide Settled, Chain, Undefined, Enters;
  }

  /** Nothing breaks off after a run that has ended, or leaves defined behaviour before. */
  lemma {:induction false} EndsAfter(env: Env, goal: Run, run: Run, stop: Stop)
    requires IsRun(env, goal) && IsRun(env, run) && First(goal) == First(run) && Ended(env, Last(goal))
    requires Stops(env, Last(run), stop)
    ensures Cost(run) + StopCost(stop) <= Price(goal) && !Crashes(env, Last(run), stop)
    decreases goal, 2
  {
    hide IsRun, Stops, Crashes, Ended;
    NoneLonger(env, goal, run);
    if Rounds(run) == Rounds(goal) {
      SameLast(env, goal, run);
      EndedBound(env, Last(run), stop);
    } else {
      Passed(env, goal, run, stop);
    }
  }

  /** Nothing breaks off after a run that left defined behaviour. */
  lemma {:induction false} CrashAfter(env: Env, goal: Run, end: Stop, run: Run, stop: Stop)
    requires IsRun(env, goal) && IsRun(env, run) && First(goal) == First(run) && Crashes(env, Last(goal), end)
    requires Stops(env, Last(run), stop)
    ensures Cost(run) + StopCost(stop) <= Cost(goal) + StopCost(end)
    decreases end, 1
  {
    hide IsRun, Stops, Crashes;
    CrashStops(env, Last(goal), end);
    if Rounds(run) > Rounds(goal) {
      Passed(env, run, goal, end);
    } else if Rounds(run) < Rounds(goal) {
      Passed(env, goal, run, stop);
    } else {
      SameLast(env, goal, run);
      CrashBound(env, Last(goal), end, stop);
    }
  }

  lemma CrashStops(env: Env, a: Snap, stop: Stop)
    requires Crashes(env, a, stop)
    ensures Stops(env, a, stop)
  {
  }

  lemma {:induction false} CrashBound(env: Env, a: Snap, end: Stop, stop: Stop)
    requires Crashes(env, a, end) && Stops(env, a, stop)
    ensures StopCost(stop) <= StopCost(end)
    decreases end, 0
  {
    hide Settled, Chain, Undefined, IsRun, Start;
    match stop
    case AtRound =>
    case Expanding(qs) =>
      assert end.Expanding?;
      NoneBeyondUndefined(a.defs, end.places, qs);
    case Executing(_) =>
    case Including(d, sub, stop') =>
      assert end.Including? && end.d == d;
      CrashAfter(env, end.sub, end.stop, sub, stop');
  }

  /** A run from `start` to its end, within `all` steps. */
  ghost predicate Finishes(env: Env, start: Snap, all: nat, goal: Run) {
    IsRun(env, goal) && First(goal) == start && Ended(env, Last(goal)) && Price(goal) <= all
  }

  /** A run from `start` to where the source leaves defined behaviour, within `all` steps. */
  ghost predicate Founders(env: Env, start: Snap, all: nat, goal: Run, end: Stop) {
    IsRun(env, goal) && First(goal) == start && Crashes(env, Last(goal), end) && Cost(goal) + StopCost(end) <= all
  }

  /** The verdict of stage 2 is determined by its start: it ends exactly if some run from there ends within
      the given steps, and in the state in which that one ends; it leaves defined behaviour exactly if some run does. */
  lemma VerdictExactly(env: Env, start: Snap, all: nat, r: Verdict, run: Run, stop: Stop, left: nat)
    requires Answers(env, start, all, r, run, stop, left)
    ensures r.Done? || r.Failed? <==> exists goal :: Finishes(env, start, all, goal)
    ensures r.Stuck? <==> exists goal, end :: Founders(env, start, all, goal, end)
    ensures r.OutOfSteps? <==> ((forall goal :: !Finishes(env, start, all, goal))
                                && (forall goal, end :: !Founders(env, start, all, goal, end)))
    ensures forall goal :: Finishes(env, start, all, goal) ==> Last(goal) == Last(run)
  {
    hide IsRun, Stops, Crashes, Rejected;
    if r.Done? || r.Failed? {
      assert Finishes(env, start, all, run);
    } else if r.Stuck? {
      CrashStops(env, Last(run), stop);
      assert Founders(env, start, all, run, stop);
    }
    forall goal | Finishes(env, start, all, goal) ensures (r.Done? || r.Failed?) && Last(goal) == Last(run) {
      if r.Done? || r.Failed? {
        RunsAgree(env, run, goal);
      } else {
        EndsAfter(env, goal, run, stop);
      }
    }
    forall goal, end | Founders(env, start, all, goal, end) ensures r.Stuck? {
      CrashStops(env, Last(goal), end);
      if r.Done? || r.Failed? {
        EndsAfter(env, run, goal, end);
      } else {
        CrashAfter(env, goal, end, run, stop);
      }
    }
  }
}
