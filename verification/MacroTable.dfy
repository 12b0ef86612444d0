/** What the macro table and the #if groups are after a run, told from the directives that were executed. */
module MacroTable {
  import opened Options
  import opened Tokens
  import opened MacroCalls
  import opened Expansion
  import opened StageTwo
  import opened StageTwoRuns
  import opened StageTwoFacts
  import opened Conditionals
  import opened OpenGroups

  /** The directives executed in a run, those of an included file after the one that included it. */
  function History(run: Run): seq<Directive> {
    match run
    case Begin(_) => []
    case Then(before, how, _) => History(before) + Executes(how)
  }

  function Executes(how: How): seq<Directive> {
    if how.Executed? then [how.d] + WithSub(how.sub) else []
  }

  function WithSub(sub: Option<Run>): seq<Directive> {
    if sub.Some? then History(sub.value) else []
  }

  // ----- the law -----

  /** What was there before: the #if directives so far, and the macros. */
  datatype Before = Before(groups: seq<Group>, defs: Defs)

  predicate Edits(d: Directive, name: string) {
    (d.DefineMacro? && d.head.text == name) || (d.UndefMacro? && d.name == name)
  }

  /** The #if directives with their conditions; #ifdef asks whether its name is defined, #ifndef whether it is not. */
  ghost function Conditions(h: seq<Directive>, start: Before): seq<Group>
    decreases |h|, 0
  {
    if h == [] then start.groups
    else Conditions(h[..|h| - 1], start) + ConditionOf(h[..|h| - 1], start, h[|h| - 1])
  }

  ghost function ConditionOf(h: seq<Directive>, start: Before, d: Directive): seq<Group>
    decreases |h|, 5
  {
    if d.Group? then [d.g]
    else if d.IfDefined? then [If(if d.negated then !IsDefined(h, start, d.name) else IsDefined(h, start, d.name))]
    else []
  }

  /** Text that comes after the directives `h` is not skipped. */
  ghost predicate ActiveAfter(h: seq<Directive>, start: Before)
    decreases |h|, 1
  {
    Shown(Conditions(h, start), |Conditions(h, start)|)
  }

  /** Directive `k` is the last one that defines or undefines `name`, those in skipped text aside. */
  ghost predicate LastEdit(h: seq<Directive>, start: Before, k: nat, name: string)
    decreases |h|, 2
  {
    && k < |h| && Edits(h[k], name) && ActiveAfter(h[..k], start)
    && forall j :: k < j < |h| && Edits(h[j], name) ==> !ActiveAfter(h[..j], start)
  }

  ghost predicate NoEdit(h: seq<Directive>, start: Before, name: string)
    decreases |h|, 3
  {
    forall k: nat :: !LastEdit(h, start, k, name)
  }

  /** The last such directive defines `name`, or there is none and it was defined before. */
  ghost predicate IsDefined(h: seq<Directive>, start: Before, name: string)
    decreases |h|, 4
  {
    || (exists k: nat :: LastEdit(h, start, k, name) && h[k].DefineMacro?)
    || (NoEdit(h, start, name) && name in start.defs)
  }

  /** A macro with the name, the parameters and the body of a definition. */
  predicate IsMacroOf(m: Macro, d: Directive) {
    && d.DefineMacro? && m.token.lex == d.head && Lexemes(m.body) == d.body
    && (if d.sig.Some? then m.sig.Some? && Lexemes(m.sig.value) == d.sig.value else m.sig.None?)
  }

  /** `defs` is what the directives `h` say. */
  ghost predicate Told(h: seq<Directive>, start: Before, defs: Defs) {
    && (forall name :: name in defs <==> IsDefined(h, start, name))
    && (forall name, k: nat :: LastEdit(h, start, k, name) && h[k].DefineMacro? ==>
          name in defs && IsMacroOf(defs[name], h[k]))
    && (forall name :: name in defs && NoEdit(h, start, name) ==>
          name in start.defs && defs[name] == start.defs[name])
  }

  // ----- one directive more -----

  lemma LastEditNext(h: seq<Directive>, start: Before, d: Directive, k: nat, name: string)
    ensures LastEdit(h + [d], start, k, name) <==>
            if Edits(d, name) && ActiveAfter(h, start) then k == |h| else LastEdit(h, start, k, name)
  {
    hide ActiveAfter, Edits;
    var h' := h + [d];
    assert forall j :: 0 <= j <= |h| ==> h'[..j] == h[..j];
    assert h[..|h|] == h && h'[|h|] == d;
  }

  lemma ConditionsNext(h: seq<Directive>, start: Before, d: Directive)
    ensures Conditions(h + [d], start) == Conditions(h, start) + ConditionOf(h, start, d)
  {
    assert (h + [d])[..|h|] == h;
    hide IsDefined;
  }

  /** A directive that edits nothing, or is in skipped text, leaves the table as it is. */
  lemma ToldSame(h: seq<Directive>, start: Before, d: Directive, defs: Defs)
    requires Told(h, start, defs) && (forall name :: !(Edits(d, name) && ActiveAfter(h, start)))
    ensures Told(h + [d], start, defs)
  {
    hide LastEdit, ActiveAfter, Edits;
    EditsSame(h, start, d);
    forall name ensures NoEdit(h + [d], start, name) <==> NoEdit(h, start, name) {
    }
    forall name ensures IsDefined(h + [d], start, name) <==> IsDefined(h, start, name) {
    }
  }

  lemma EditsSame(h: seq<Directive>, start: Before, d: Directive)
    requires forall name :: !(Edits(d, name) && ActiveAfter(h, start))
    ensures forall k: nat, name :: LastEdit(h + [d], start, k, name) <==> LastEdit(h, start, k, name)
    ensures forall k: nat, name :: LastEdit(h, start, k, name) ==> k < |h| && (h + [d])[k] == h[k]
  {
    forall k: nat, name
      ensures LastEdit(h + [d], start, k, name) <==> LastEdit(h, start, k, name)
      ensures LastEdit(h, start, k, name) ==> k < |h| && (h + [d])[k] == h[k]
    {
      LastEditNext(h, start, d, k, name);
      EditInside(h, start, k, name);
      hide LastEdit, ActiveAfter, Edits;
    }
  }

  lemma EditInside(h: seq<Directive>, start: Before, k: nat, name: string)
    ensures LastEdit(h, start, k, name) ==> k < |h|
  {
  }

  /** An active #define or #undef of `name` decides about that name. */
  lemma ToldEdit(h: seq<Directive>, start: Before, d: Directive, defs: Defs, name: string, defs': Defs)
    requires Told(h, start, defs) && Edits(d, name) && ActiveAfter(h, start)
    requires forall n :: n != name ==> (n in defs' <==> n in defs) && (n in defs ==> defs'[n] == defs[n])
    requires if d.DefineMacro? then name in defs' && IsMacroOf(defs'[name], d) else name !in defs'
    ensures Told(h + [d], start, defs')
  {
    hide LastEdit, ActiveAfter, IsMacroOf;
    EditsOther(h, start, d, name);
    EditIsLast(h, start, d, name);
    var h' := h + [d];
    forall n ensures n in defs' <==> IsDefined(h', start, n) {
      if n == name {
        assert LastEdit(h', start, |h|, n) && !NoEdit(h', start, n);
        assert forall k: nat :: LastEdit(h', start, k, n) ==> h'[k] == d;
      } else {
        assert NoEdit(h', start, n) <==> NoEdit(h, start, n);
        DefinedSame(h, h', start, n);
      }
    }
    forall n | n in defs' && NoEdit(h', start, n) ensures n in start.defs && defs'[n] == start.defs[n] {
      assert n != name by {
        assert LastEdit(h', start, |h|, name);
      }
      assert NoEdit(h, start, n);
    }
  }

  lemma DefinedSame(h: seq<Directive>, h': seq<Directive>, start: Before, n: string)
    requires forall k: nat :: LastEdit(h', start, k, n) <==> LastEdit(h, start, k, n)
    requires forall k: nat :: LastEdit(h, start, k, n) ==> k < |h| <= |h'| && h'[k] == h[k]
    ensures IsDefined(h', start, n) <==> IsDefined(h, start, n)
  {
    hide LastEdit;
    assert NoEdit(h', start, n) <==> NoEdit(h, start, n);
  }

  lemma EditsOther(h: seq<Directive>, start: Before, d: Directive, name: string)
    requires Edits(d, name)
    ensures forall k: nat, n :: n != name ==> (LastEdit(h + [d], start, k, n) <==> LastEdit(h, start, k, n))
    ensures forall k: nat, n :: LastEdit(h, start, k, n) ==> k < |h| && (h + [d])[k] == h[k]
  {
    forall k: nat, n
      ensures n != name ==> (LastEdit(h + [d], start, k, n) <==> LastEdit(h, start, k, n))
      ensures LastEdit(h, start, k, n) ==> k < |h| && (h + [d])[k] == h[k]
    {
      LastEditNext(h, start, d, k, n);
      EditInside(h, start, k, n);
      hide LastEdit, ActiveAfter;
    }
  }

  lemma EditIsLast(h: seq<Directive>, start: Before, d: Directive, name: string)
    requires Edits(d, name) && ActiveAfter(h, start)
    ensures forall k: nat :: LastEdit(h + [d], start, k, name) <==> k == |h|
    ensures (h + [d])[|h|] == d
  {
    forall k: nat ensures LastEdit(h + [d], start, k, name) <==> k == |h| {
      LastEditNext(h, start, d, k, name);
      hide LastEdit, ActiveAfter;
    }
  }

  // ----- all runs -----

  /** Macros and levels are what the directives `h` say. */
  ghost predicate Explained(h: seq<Directive>, start: Before, a: Snap) {
    LedTo(Conditions(h, start), a.levels) && Told(h, start, a.defs)
  }

  lemma ActiveNow(h: seq<Directive>, start: Before, a: Snap)
    requires Explained(h, start, a)
    ensures a.levels.skip == 0 <==> ActiveAfter(h, start)
  {
    hide Shown, Told;
    var gs := Conditions(h, start);
    SkipsExactly(gs);
    SkippedUnlessShown(gs);
  }

  lemma {:induction false} RunExplained(env: Env, run: Run, h: seq<Directive>, start: Before)
    requires IsRun(env, run) && Explained(h, start, First(run))
    ensures Explained(h + History(run), start, Last(run))
    decreases run, 1
  {
    hide Explained, Round;
    match run
    case Begin(_) =>
      assert h + [] == h;
    case Then(before, how, b) =>
      RunExplained(env, before, h, start);
      RoundExplained(env, Last(before), how, b, h + History(before), start);
      assert h + (History(before) + Executes(how)) == h + History(before) + Executes(how);
  }

  lemma {:induction false} RoundExplained(env: Env, a: Snap, how: How, b: Snap, h: seq<Directive>, start: Before)
    requires Round(env, a, how, b) && Explained(h, start, a)
    ensures Explained(h + Executes(how), start, b)
    decreases how, 0
  {
    hide Told, LedTo, Conditions, Effect, ExpandsTo;
    assert h + [] == h;
    if how.Executed? {
      EffectExplained(env, how.d, a.(clock := a.clock + 1), how.sub, b.(pending := a.pending, scan := a.scan), h,
                      start);
    }
  }

  lemma {:induction false} EffectExplained(env: Env, d: Directive, a: Snap, sub: Option<Run>, b: Snap,
                                           h: seq<Directive>, start: Before)
    requires a.index <= |a.tokens| && Effect(env, d, a, sub, b) && Explained(h, start, a)
    ensures Explained(h + ([d] + WithSub(sub)), start, b)
    decreases sub, 1
  {
    hide Explained, Inclusion, Enters, Conditionals.Exec;
    ActiveNow(h, start, a);
    var none: seq<Directive> := [];
    assert h + ([d] + none) == h + [d];
    match d
    case Group(g) =>
      GroupExplained(h, start, d, a, b, g);
    case IfDefined(name, negated) =>
      AsksDefined(h, start, a, name);
      GroupExplained(h, start, d, a, b, If((name in a.defs) != negated));
    case DefineMacro(head, sig, body) =>
      if a.levels.skip == 0 {
        StoredIs(head, sig, body, a.next);
        EditExplained(h, start, d, a, b, head.text);
      } else {
        OtherExplained(h, start, d, a, b);
      }
    case UndefMacro(name) =>
      if a.levels.skip == 0 {
        EditExplained(h, start, d, a, b, name);
      } else {
        OtherExplained(h, start, d, a, b);
      }
    case IncludeFile(file) =>
      OtherExplained(h, start, d, a, a);
      if a.levels.skip == 0 {
        InclusionTable(env, file, a, sub, b);
        if sub.Some? {
          SameExplained(h + [d], start, a, First(sub.value));
          RunExplained(env, sub.value, h + [d], start);
          assert h + [d] + History(sub.value) == h + ([d] + History(sub.value));
          SameExplained(h + [d] + History(sub.value), start, Last(sub.value), b);
        } else {
          SameExplained(h + [d], start, a, b);
        }
      }
    case NoEffect =>
      OtherExplained(h, start, d, a, b);
  }

  lemma SameExplained(h: seq<Directive>, start: Before, a: Snap, b: Snap)
    requires Explained(h, start, a) && b.defs == a.defs && b.levels == a.levels
    ensures Explained(h, start, b)
  {
  }

  lemma InclusionTable(env: Env, file: Lexeme, a: Snap, sub: Option<Run>, b: Snap)
    requires a.index <= |a.tokens| && Inclusion(env, file, a, sub, b)
    ensures if sub.Some? then
              && IsRun(env, sub.value) && First(sub.value).levels == a.levels && First(sub.value).defs == a.defs
              && b.levels == Last(sub.value).levels && b.defs == Last(sub.value).defs
            else b.levels == a.levels && b.defs == a.defs
  {
    hide IsRun, Rejected, Enters;
    if env.open(a.clock + 1, file).Scanned? {
      InclusionEnters(env, file, a, sub, b);
      EntersRun(env, file, a, sub.value);
    }
  }

  lemma GroupExplained(h: seq<Directive>, start: Before, d: Directive, a: Snap, b: Snap, g: Group)
    requires Explained(h, start, a) && Grouped(a, g, b) && ConditionOf(h, start, d) == [g]
    ensures Explained(h + [d], start, b)
  {
    hide Told, LedTo, Conditions, Exec;
    ConditionsNext(h, start, d);
    OneGroup(Conditions(h, start), g, a.levels);
    ToldSame(h, start, d, a.defs);
  }

  lemma AsksDefined(h: seq<Directive>, start: Before, a: Snap, name: string)
    requires Explained(h, start, a)
    ensures name in a.defs <==> IsDefined(h, start, name)
  {
    hide IsDefined, LedTo;
  }

  lemma StoredIs(head: Lexeme, sig: Option<seq<Lexeme>>, body: seq<Lexeme>, next: nat)
    ensures IsMacroOf(StoredMacro(head, sig, body, next), DefineMacro(head, sig, body))
  {
    assert Lexemes(Allocate(body, next + 1 + SigSize(sig))) == body;
    if sig.Some? {
      assert Lexemes(Allocate(sig.value, next + 1)) == sig.value;
    }
  }

  lemma EditExplained(h: seq<Directive>, start: Before, d: Directive, a: Snap, b: Snap, name: string)
    requires Explained(h, start, a) && ActiveAfter(h, start) && Edits(d, name) && b.levels == a.levels
    requires forall n :: n != name ==> (n in b.defs <==> n in a.defs) && (n in a.defs ==> b.defs[n] == a.defs[n])
    requires if d.DefineMacro? then name in b.defs && IsMacroOf(b.defs[name], d) else name !in b.defs
    ensures Explained(h + [d], start, b)
  {
    hide Told, LedTo, Conditions, IsMacroOf;
    ConditionsNext(h, start, d);
    ToldEdit(h, start, d, a.defs, name, b.defs);
    assert Conditions(h, start) + [] == Conditions(h, start);
  }

  /** A directive that is no #if, and no active #define or #undef. */
  lemma OtherExplained(h: seq<Directive>, start: Before, d: Directive, a: Snap, b: Snap)
    requires Explained(h, start, a) && b.levels == a.levels && b.defs == a.defs
    requires !d.Group? && !d.IfDefined? && (d.DefineMacro? || d.UndefMacro? ==> !ActiveAfter(h, start))
    ensures Explained(h + [d], start, b)
  {
    hide Told, LedTo, Conditions, ActiveAfter;
    ConditionsNext(h, start, d);
    ToldSame(h, start, d, a.defs);
    assert Conditions(h, start) + [] == Conditions(h, start);
  }

  lemma NothingTold(start: Before)
    ensures Told([], start, start.defs)
  {
    forall name ensures NoEdit([], start, name) && (IsDefined([], start, name) <==> name in start.defs) {
    }
  }

  /** In every run, included files counted in: a name is defined exactly if the last #define or #undef of it
      outside of skipped text is a #define, or there is none and it was defined before; its macro has the parameters
      and the body of that #define, or is the one from before. */
  lemma TableExactly(env: Env, run: Run, gs: seq<Group>)
    requires IsRun(env, run) && LedTo(gs, First(run).levels)
    ensures Told(History(run), Before(gs, First(run).defs), Last(run).defs)
    ensures Last(run).levels.skip == 0 <==> ActiveAfter(History(run), Before(gs, First(run).defs))
  {
    hide Told, LedTo, ActiveAfter;
    var start, none := Before(gs, First(run).defs), [];
    NothingTold(start);
    assert Explained(none, start, First(run));
    RunExplained(env, run, none, start);
    assert none + History(run) == History(run);
    ActiveNow(History(run), start, Last(run));
  }
}
