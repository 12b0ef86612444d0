/** Runs of stage 2, round by round, with the runs over included files inside. */
module StageTwoRuns {
  import opened Options
  import opened Tokens
  import opened MacroCalls
  import opened Expansion
  import opened Ownership
  import opened Replacing
  import opened StageTwo
  import Conditionals
  import Stage = StageOne

  /** The state between two rounds. */
  datatype Snap = Snap(tokens: seq<Token>, index: nat, next: nat, scan: Scan, pending: seq<Token>,
                       defs: Defs, levels: Conditionals.Levels, clock: nat)

  /** The stream between two expansions. */
  datatype Place = Place(tokens: seq<Token>, index: nat, live: multiset<Token>, next: nat)

  /** What a round does with the token at the cursor: delete it, step over it, replace it, move it to
      the pending directive, or give that to the parser and execute it, possibly with a run over a file. */
  datatype How = Dropped | Advanced | Expanded(places: seq<Place>) | Moved | Executed(d: Directive, sub: Option<Run>)

  datatype Run = Begin(s: Snap) | Then(before: Run, how: How, s: Snap)

  function First(run: Run): Snap {
    match run
    case Begin(s) => s
    case Then(before, _, _) => First(before)
  }

  function Last(run: Run): Snap {
    run.s
  }

  // ----- what a round may do -----

  /** Text that is skipped, and line ends outside of directives, are deleted. */
  predicate Drops(a: Snap)
    requires a.index < |a.tokens|
  {
    var t := a.tokens[a.index];
    !Look(a.scan, t.lex.kind).doCpp && (t.Is(Eol) || a.levels.skip != 0)
  }

  predicate MayExpand(a: Snap)
    requires a.index < |a.tokens|
  {
    var t := a.tokens[a.index];
    Look(a.scan, t.lex.kind).doExpansion && t.Is(Name) && t.lex.text in a.defs && !Settled(a.tokens, a.index, a.defs)
  }

  /** The end of a directive is at the cursor. */
  predicate Hands(a: Snap)
    requires a.index < |a.tokens|
  {
    var s := Look(a.scan, a.tokens[a.index].lex.kind);
    !Drops(a) && !MayExpand(a) && s.doCpp && s.isEol
  }

  /** Without the token at the cursor; at the end of the stream the cursor goes back. */
  function Cut(a: Snap): Snap
    requires a.index < |a.tokens|
  {
    var i := a.index;
    a.(tokens := a.tokens[..i] + a.tokens[i + 1..], index := Stage.Clip(i, |a.tokens| - 1))
  }

  ghost predicate ExpandsOnce(defs: Defs, p: Place, q: Place) {
    Substituted(p.tokens, p.index, p.live, p.next, defs, q.tokens, q.index, q.live, q.next)
  }

  /** Expansions one after the other. */
  ghost predicate Chain(defs: Defs, ps: seq<Place>) {
    |ps| > 0 && (|ps| == 1 || (Chain(defs, ps[..|ps| - 1]) && ExpandsOnce(defs, ps[|ps| - 2], ps[|ps| - 1])))
  }

  /** At least one expansion, from the stream of `a` to that of `b`, where nothing more is expanded. */
  ghost predicate ExpandsTo(a: Snap, ps: seq<Place>, b: Snap) {
    && |ps| > 1 && Chain(a.defs, ps)
    && ps[0].tokens == a.tokens && ps[0].index == a.index && ps[0].next == a.next
    && ps[|ps| - 1].tokens == b.tokens && ps[|ps| - 1].index == b.index && ps[|ps| - 1].next == b.next
    && Settled(b.tokens, b.index, a.defs)
  }

  /** The macro stored for a definition, with tokens of its own. */
  function StoredMacro(head: Lexeme, sig: Option<seq<Lexeme>>, body: seq<Lexeme>, next: nat): Macro {
    Macro(Token(next, head), if sig.Some? then Some(Allocate(sig.value, next + 1))
                             else None, Allocate(body, next + 1 + SigSize(sig)))
  }

  function SigSize(sig: Option<seq<Lexeme>>): nat {
    if sig.Some? then |sig.value| else 0
  }

  /** The state in which stage 2 begins on a file. */
  function Start(ls: seq<Lexeme>, a: Snap): Snap {
    var scanned, next := Allocate(ls, a.next), a.next + |ls|;
    Snap(Stage.Result(scanned, next), 0, Stage.Whole(scanned, next).next, BEGIN, [], a.defs, a.levels, a.clock)
  }

  /** The parser rejects the directive that ends at the cursor. */
  ghost predicate Rejected(env: Env, a: Snap) {
    && a.index < |a.tokens| && Hands(a)
    && env.parse(a.clock + 1, a.pending + [a.tokens[a.index]], a.defs).None?
  }

  /** One round, from `a` to `b`. */
  ghost predicate Round(env: Env, a: Snap, how: How, b: Snap)
    decreases how, 0
  {
    && a.index < |a.tokens|
    && var t := a.tokens[a.index];
       var s := Look(a.scan, t.lex.kind);
       match how
       case Dropped => Drops(a) && b == Cut(a).(scan := s)
       case Expanded(ps) => !Drops(a) && MayExpand(a)
           && b == a.(tokens := b.tokens, index := b.index, next := b.next, scan := s) && ExpandsTo(a, ps, b)
       case Moved => !Drops(a) && !MayExpand(a) && s.doCpp && !s.isEol
           && b == Cut(a).(scan := s, pending := a.pending + [t])
       case Advanced => !Drops(a) && !MayExpand(a) && !s.doCpp && b == a.(index := a.index + 1, scan := s)
       case Executed(d, sub) =>
         && Hands(a) && env.parse(a.clock + 1, a.pending + [t], a.defs) == Some(d)
         && b.pending == [] && b.scan == s.(doCpp := false)
         && Effect(env, d, a.(clock := a.clock + 1), sub, b.(pending := a.pending, scan := a.scan))
  }

  /** An #if directive, not nested too deep. */
  predicate Grouped(a: Snap, g: Conditionals.Group, b: Snap) {
    var outcome := Conditionals.Exec(a.levels, g);
    outcome.ok && b == a.(levels := outcome.levels)
  }

  /** The #if directive that `d` is, with its condition, while `defs` are defined. */
  function GroupsOf(d: Directive, defs: Defs): seq<Conditionals.Group> {
    match d
    case Group(g) => [g]
    case IfDefined(name, negated) => [Conditionals.If((name in defs) != negated)]
    case _ => []
  }

  /** An #if directive nested too deep. */
  predicate TooDeepAt(d: Directive, a: Snap) {
    var gs := GroupsOf(d, a.defs);
    gs != [] && !Conditionals.Exec(a.levels, gs[0]).ok
  }

  /** What executing a directive does. */
  ghost predicate Effect(env: Env, d: Directive, a: Snap, sub: Option<Run>, b: Snap)
    requires a.index <= |a.tokens|
    decreases sub, 1
  {
    match d
    case Group(g) => sub.None? && Grouped(a, g, b)
    case IfDefined(name, negated) => sub.None? && Grouped(a, Conditionals.If((name in a.defs) != negated), b)
    case DefineMacro(head, sig, body) =>
      sub.None? &&
      b == if a.levels.skip != 0 then a
           else a.(defs := a.defs[head.text := StoredMacro(head, sig, body, a.next)],
               next := a.next + 1 + SigSize(sig) + |body|)
    case UndefMacro(name) => sub.None? && b == if a.levels.skip != 0 then a else a.(defs := a.defs - {name})
    case IncludeFile(file) => if a.levels.skip != 0 then sub.None? && b == a else Inclusion(env, file, a, sub, b)
    case NoEffect => sub.None? && b == a
  }

  /** A file is preprocessed on the same state, and what comes out is inserted before the cursor; if
      the parser rejected a directive in it nothing is inserted. */
  ghost predicate Inclusion(env: Env, file: Lexeme, a: Snap, sub: Option<Run>, b: Snap)
    requires a.index <= |a.tokens|
    decreases sub, 0
  {
    var found := env.open(a.clock + 1, file);
    if !found.Scanned? then sub.None? && b == a.(clock := a.clock + 1)
    else
      && sub.Some? && Enters(env, file, a, sub.value)
      && var z := Last(sub.value);
         var shared := a.(next := z.next, defs := z.defs, levels := z.levels);
         if z.index >= |z.tokens|
         then b == shared.(tokens := a.tokens[..a.index] + z.tokens + a.tokens[a.index..],
                           index := a.index + |z.tokens|, clock := z.clock)
         else Rejected(env, z) && b == shared.(clock := z.clock + 1)
  }

  /** The run over a file that the directive `#include` of `a` begins. */
  ghost predicate Enters(env: Env, file: Lexeme, a: Snap, run: Run)
    decreases run, 1
  {
    var found := env.open(a.clock + 1, file);
    found.Scanned? && IsRun(env, run) && First(run) == Start(found.ls, a.(clock := a.clock + 1))
  }

  ghost predicate IsRun(env: Env, run: Run)
    decreases run, 0
  {
    match run
    case Begin(s) => s.index == 0 && s.scan == BEGIN && s.pending == []
    case Then(before, how, s) => IsRun(env, before) && Round(env, Last(before), how, s)
  }

  // ----- runs that do not end -----

  /** Steps taken by a round besides its own: further expansions, or the run over a file. */
  function Extra(how: How): nat {
    match how
    case Expanded(places) => if places == [] then 0 else |places| - 1
    case Executed(_, sub) => OfSub(sub)
    case _ => 0
  }

  function OfSub(sub: Option<Run>): nat {
    if sub.Some? then Price(sub.value) else 0
  }

  /** The steps of a run. */
  function Cost(run: Run): nat
    decreases run, 0
  {
    match run
    case Begin(_) => 0
    case Then(before, how, _) => Cost(before) + 1 + Extra(how)
  }

  /** The steps of a run that has ended; that in which the parser rejects a directive counts. */
  function Price(run: Run): nat
    decreases run, 1
  {
    Cost(run) + if Last(run).index < |Last(run).tokens| then 1 else 0
  }

  /** A round that was not finished: it was only about to begin, it was expanding, it was executing an #if
      directive, or it was in the run over a file. */
  datatype Stop =
    | AtRound | Expanding(places: seq<Place>) | Executing(d: Directive) | Including(d: Directive, sub: Run, stop: Stop)

  function StopCost(stop: Stop): nat {
    match stop
    case AtRound => 1
    case Expanding(places) => |places|
    case Executing(_) => 1
    case Including(_, sub, stop') => 1 + Cost(sub) + StopCost(stop')
  }

  /** The round from `a` on gets to `stop`. */
  ghost predicate Stops(env: Env, a: Snap, stop: Stop)
    decreases stop
  {
    && a.index < |a.tokens|
    && match stop
       case AtRound => true
       case Expanding(ps) => !Drops(a) && MayExpand(a) && Chain(a.defs, ps) && Begins(a, ps)
       case Executing(d) =>
         && Hands(a) && env.parse(a.clock + 1, a.pending + [a.tokens[a.index]], a.defs) == Some(d)
         && GroupsOf(d, a.defs) != []
       case Including(d, sub, stop') =>
         && IncludesAt(env, a, d, sub)
         && Stops(env, Last(sub), stop')
  }

  ghost predicate Begins(a: Snap, ps: seq<Place>) {
    ps != [] && ps[0].tokens == a.tokens && ps[0].index == a.index && ps[0].next == a.next
  }

  /** The directive that ends at the cursor includes a file, and `sub` is a run over it. */
  ghost predicate IncludesAt(env: Env, a: Snap, d: Directive, sub: Run)
    requires a.index < |a.tokens|
  {
    && Hands(a) && env.parse(a.clock + 1, a.pending + [a.tokens[a.index]], a.defs) == Some(d)
    && d.IncludeFile? && a.levels.skip == 0 && Enters(env, d.file, a.(clock := a.clock + 1), sub)
  }

  /** There the source leaves defined behaviour. */
  ghost predicate Crashes(env: Env, a: Snap, stop: Stop)
    decreases stop
  {
    && Stops(env, a, stop)
    && match stop
       case AtRound => false
       case Expanding(ps) => var p := ps[|ps| - 1]; Undefined(p.tokens, p.index, a.defs)
       case Executing(d) => TooDeepAt(d, a)
       case Including(_, sub, stop') => Crashes(env, Last(sub), stop')
  }

  /** The round from `a` on breaks off at `stop` with the verdict `r`, given `all` steps. */
  ghost predicate BreaksAt(env: Env, a: Snap, stop: Stop, r: Verdict, all: nat) {
    if r.Stuck? then Crashes(env, a, stop) && StopCost(stop) <= all else Stops(env, a, stop) && StopCost(stop) > all
  }

  ghost predicate BreaksIn(env: Env, run: Run, stop: Stop, r: Verdict, all: nat) {
    if r.Stuck? then Crashes(env, Last(run), stop) && Cost(run) + StopCost(stop) <= all
    else Stops(env, Last(run), stop) && Cost(run) + StopCost(stop) > all
  }

  /** How a run got to the verdict `r` with `steps` of `all` steps left: it ended, it got to where the
      source leaves defined behaviour, or it takes more steps. */
  ghost predicate Answers(env: Env, start: Snap, all: nat, r: Verdict, run: Run, stop: Stop, steps: nat) {
    && IsRun(env, run) && First(run) == start
    && match r
       case Done => Last(run).index >= |Last(run).tokens| && Price(run) + steps == all
       case Failed => Rejected(env, Last(run)) && Price(run) + steps == all
       case _ => BreaksIn(env, run, stop, r, all)
  }

  /** The same for a single directive, executed in `a`. */
  ghost predicate Breaks(env: Env, d: Directive, a: Snap, sub: Option<Run>, stop: Stop, r: Verdict, all: nat) {
    if d.IncludeFile? then
      && a.levels.skip == 0 && sub.Some? && Enters(env, d.file, a, sub.value)
      && BreaksIn(env, sub.value, stop, r, all)
    else r.Stuck? && sub.None? && TooDeepAt(d, a)
  }

  /** Where the round of a directive breaks off. */
  function StopFor(d: Directive, sub: Option<Run>, stop: Stop): Stop {
    if sub.Some? then Including(d, sub.value, stop) else Executing(d)
  }

  // ----- recording a run -----

  lemma ChainBegins(defs: Defs, p: Place)
    ensures Chain(defs, [p])
  {
  }

  lemma ChainGrows(defs: Defs, ps: seq<Place>, q: Place)
    requires ps != [] && Chain(defs, ps)
    requires var p := ps[|ps| - 1]; Substituted(p.tokens, p.index, p.live, p.next, defs, q.tokens, q.index, q.live,
             q.next)
    ensures Chain(defs, ps + [q])
  {
    hide Substituted;
    assert (ps + [q])[..|ps|] == ps;
  }

  lemma KeptIsNoEol(a: Snap)
    requires a.index < |a.tokens| && !Drops(a) && !Look(a.scan, a.tokens[a.index].lex.kind).doCpp
    ensures !a.tokens[a.index].Is(Eol) && a.levels.skip == 0
  {
    hide Look;
  }

  lemma HandsHere(a: Snap, s: Scan)
    requires a.index < |a.tokens| && !MayExpand(a) && s == Look(a.scan, a.tokens[a.index].lex.kind) && s.doCpp
    requires s.isEol
    ensures Hands(a)
  {
  }

  lemma RejectedHere(env: Env, a: Snap)
    requires a.index < |a.tokens| && Hands(a) && env.parse(a.clock + 1, a.pending + [a.tokens[a.index]], a.defs).None?
    ensures Rejected(env, a)
  {
  }

  lemma DroppedRound(env: Env, a: Snap, b: Snap)
    requires a.index < |a.tokens| && Drops(a) && b == Cut(a).(scan := Look(a.scan, a.tokens[a.index].lex.kind))
    ensures Round(env, a, Dropped, b)
  {
  }

  lemma ExpandedRound(env: Env, a: Snap, ps: seq<Place>, b: Snap)
    requires a.index < |a.tokens| && !Drops(a) && MayExpand(a) && ExpandsTo(a, ps, b)
    requires b == a.(tokens := b.tokens, index := b.index, next := b.next, scan := Look(a.scan,
             a.tokens[a.index].lex.kind))
    ensures Round(env, a, Expanded(ps), b)
  {
  }

  lemma AdvancedRound(env: Env, a: Snap, b: Snap)
    requires a.index < |a.tokens| && !Drops(a) && !MayExpand(a)
    requires var s := Look(a.scan, a.tokens[a.index].lex.kind); !s.doCpp && b == a.(index := a.index + 1, scan := s)
    ensures Round(env, a, Advanced, b)
  {
  }

  lemma MovedRound(env: Env, a: Snap, b: Snap)
    requires a.index < |a.tokens| && !MayExpand(a)
    requires var s := Look(a.scan, a.tokens[a.index].lex.kind);
             s.doCpp && !s.isEol && b == Cut(a).(scan := s, pending := a.pending + [a.tokens[a.index]])
    ensures Round(env, a, Moved, b)
  {
  }

  /** `e`: the state after the directive was executed. */
  lemma ExecutedRound(env: Env, a: Snap, d: Directive, sub: Option<Run>, e: Snap, b: Snap)
    requires a.index < |a.tokens| && Hands(a)
    requires env.parse(a.clock + 1, a.pending + [a.tokens[a.index]], a.defs) == Some(d)
    requires Effect(env, d, a.(clock := a.clock + 1), sub, e)
    requires b == e.(pending := [], scan := Look(a.scan, a.tokens[a.index].lex.kind).(doCpp := false))
    requires e.pending == a.pending && e.scan == a.scan
    ensures Round(env, a, Executed(d, sub), b)
  {
  }

  lemma StoredMacroIsNew(head: Lexeme, sig: Option<seq<Lexeme>>, body: seq<Lexeme>, next: nat)
    requires forall k :: 0 <= k < |body| ==> !Blank(body[k].kind)
    ensures var m := StoredMacro(head, sig, body, next);
            Clean(m.body) && forall t :: t in MacroTokens(m) ==> next <= t.id < next + 1 + SigSize(sig) + |body|
  {
  }

  lemma StartsWith(ls: seq<Lexeme>, a: Snap)
    ensures var n := a.next + |ls|;
            Start(ls, a) == Snap(Stage.Result(Allocate(ls, a.next), n), 0, Stage.Whole(Allocate(ls, a.next),
                n).next, BEGIN, [], a.defs, a.levels, a.clock)
  {
  }

  lemma EntersWith(env: Env, file: Lexeme, ls: seq<Lexeme>, a: Snap, run: Run)
    requires env.open(a.clock + 1, file) == Scanned(ls)
    requires IsRun(env, run) && First(run) == Start(ls, a.(clock := a.clock + 1))
    ensures Enters(env, file, a, run)
  {
    hide IsRun, Start;
  }

  lemma InclusionDone(env: Env, file: Lexeme, ls: seq<Lexeme>, a: Snap, run: Run, b: Snap)
    requires a.index <= |a.tokens| && env.open(a.clock + 1, file) == Scanned(ls)
    requires IsRun(env, run) && First(run) == Start(ls, a.(clock := a.clock + 1))
    requires Last(run).index >= |Last(run).tokens|
    requires var z := Last(run);
             b == Snap(a.tokens[..a.index] + z.tokens + a.tokens[a.index..], a.index + |z.tokens|, z.next, a.scan,
                 a.pending, z.defs, z.levels, z.clock)
    ensures Inclusion(env, file, a, Some(run), b)
  {
    hide IsRun, Start, Rejected;
  }

  lemma InclusionFailed(env: Env, file: Lexeme, ls: seq<Lexeme>, a: Snap, run: Run, b: Snap)
    requires a.index <= |a.tokens| && env.open(a.clock + 1, file) == Scanned(ls)
    requires IsRun(env, run) && First(run) == Start(ls, a.(clock := a.clock + 1)) && Rejected(env, Last(run))
    requires var z := Last(run); b == Snap(a.tokens, a.index, z.next, a.scan, a.pending, z.defs, z.levels, z.clock + 1)
    ensures Inclusion(env, file, a, Some(run), b)
  {
    hide IsRun, Start;
  }

  lemma StopsAtRound(env: Env, a: Snap)
    requires a.index < |a.tokens|
    ensures Stops(env, a, AtRound)
  {
  }

  lemma RoundBreaks(env: Env, run: Run, stop: Stop, r: Verdict, all: nat)
    requires Cost(run) < all
    ensures r.Failed? && Rejected(env, Last(run)) ==> Price(run) == Cost(run) + 1
    ensures BreaksAt(env, Last(run), stop, r, all - Cost(run)) ==> BreaksIn(env, run, stop, r, all)
  {
    hide Stops, Crashes, Hands;
  }

  lemma ExpandingBreaks(env: Env, a: Snap, ps: seq<Place>, r: Verdict, all: nat)
    requires a.index < |a.tokens| && !Drops(a) && MayExpand(a) && Chain(a.defs, ps) && Begins(a, ps)
    requires if r.Stuck? then Undefined(ps[|ps| - 1].tokens, ps[|ps| - 1].index, a.defs) && |ps| <= all else |ps| > all
    ensures BreaksAt(env, a, Expanding(ps), r, all)
  {
  }

  lemma ExecutingBreaks(env: Env, a: Snap, d: Directive, sub: Option<Run>, stop: Stop, r: Verdict, all: nat)
    requires a.index < |a.tokens| && Hands(a)
    requires env.parse(a.clock + 1, a.pending + [a.tokens[a.index]], a.defs) == Some(d)
    requires Breaks(env, d, a.(clock := a.clock + 1), sub, stop, r, all)
    ensures BreaksAt(env, a, StopFor(d, sub, stop), r, all + 1)
  {
    hide Hands, Enters, MayExpand;
  }
}
