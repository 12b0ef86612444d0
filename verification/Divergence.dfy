/** Stage 2 on text whose expansion never ends: it does not end either, whatever number of steps it is given. */
module Divergence {
  import opened Tokens
  import opened Expansion
  import opened Replacing
  import opened StageTwo
  import opened StageTwoRuns
  import opened StageTwoFacts
  import Conditionals
  import Pasting

  // ----- the scan -----

  lemma NeverNothing(defs: Defs, ls: seq<Lexeme>, head: bool)
    requires Diverges(defs, ls, head)
    ensures ls != []
  {
    assert Ends(defs, [], head, 0) && !Ends(defs, ls, head, 0);
  }

  lemma GoesOn(defs: Defs, l: Lexeme, rest: seq<Lexeme>, head: bool)
    requires Diverges(defs, [l] + rest, head)
    ensures if Expansion.Replaces(defs, l, head) then Diverges(defs, Replacement(defs, l) + rest, true)
            else Diverges(defs, rest, false)
  {
    var ls := [l] + rest;
    assert ls[1..] == rest;
    if Expansion.Replaces(defs, l, head) {
      forall n: nat ensures !Ends(defs, Replacement(defs, l) + rest, true, n) {
        assert !Ends(defs, ls, head, n + 1);
      }
    } else {
      forall n: nat ensures !Ends(defs, rest, false, n) {
        assert !Ends(defs, ls, head, n + 1);
      }
    }
  }

  lemma HeadDoesNotMatter(defs: Defs, l: Lexeme, rest: seq<Lexeme>)
    requires Diverges(defs, [l] + rest, true) && !Expands(defs, l.text)
    ensures Diverges(defs, [l] + rest, false)
  {
    var ls := [l] + rest;
    forall n: nat ensures !Ends(defs, ls, false, n) {
      assert !Ends(defs, ls, true, n);
    }
  }

  // ----- the stream -----

  /** Tokens of macros are none of the stream and none that will be made. */
  ghost predicate Apart(defs: Defs, ts: seq<Token>, next: nat) {
    forall n :: n in defs ==> defs[n].token.id < next && forall k :: 0 <= k < |ts| ==> defs[n].token.id != ts[k].id
  }

  /** Between two rounds, or two expansions: what is at the cursor and behind it expands for ever. */
  ghost predicate Endless(defs: Defs, ts: seq<Token>, i: nat, next: nat, head: bool) {
    PlainIn(defs, ts) && NoHash(ts) && Apart(defs, ts, next) && i <= |ts| && Diverges(defs, Lexemes(ts[i..]), head)
  }

  lemma EndlessHere(defs: Defs, ts: seq<Token>, i: nat, next: nat, head: bool)
    requires Endless(defs, ts, i, next, head)
    ensures i < |ts| && !ts[i].Is(Hash) && Lexemes(ts[i..]) == [ts[i].lex] + Lexemes(ts[i + 1..])
    ensures !Undefined(ts, i, defs) && (Settled(ts, i, defs) <==> !Expands(defs, ts[i].lex.text))
  {
    NeverNothing(defs, Lexemes(ts[i..]), head);
    LexemesSplit(ts, i);
    if ts[i].lex.text in defs {
      PlainHere(defs, ts, i);
    }
  }

  /** A token that is not replaced is left behind. */
  lemma EndlessNext(defs: Defs, ts: seq<Token>, i: nat, next: nat, head: bool)
    requires Endless(defs, ts, i, next, head) && i < |ts| && !Expansion.Replaces(defs, ts[i].lex, head)
    ensures Endless(defs, ts, i + 1, next, false)
    ensures i + 1 < |ts| && Endless(defs, ts[..i] + ts[i + 1..], i, next, false)
  {
    EndlessHere(defs, ts, i, next, head);
    GoesOn(defs, ts[i].lex, Lexemes(ts[i + 1..]), head);
    NeverNothing(defs, Lexemes(ts[i + 1..]), false);
    var cut := ts[..i] + ts[i + 1..];
    assert cut[i..] == ts[i + 1..];
    PlainSome(defs, ts, cut);
    forall n | n in defs ensures forall k :: 0 <= k < |cut| ==> defs[n].token.id != cut[k].id {
    }
  }

  /** An expansion goes on to what it inserts. */
  lemma EndlessExpands(defs: Defs, p: Place, q: Place, head: bool)
    requires Endless(defs, p.tokens, p.index, p.next, head) && ExpandsOnce(defs, p, q)
    requires p.index < |p.tokens| && (head || p.tokens[p.index].Is(Name))
    ensures Endless(defs, q.tokens, q.index, q.next, true)
  {
    hide Endless, ExpandsOnce, Pasting.BuildUpTo;
    var ts, i := p.tokens, p.index;
    NameExpands(defs, p, q, head);
    var toks, l := Lexemes(defs[ts[i].lex.text].body), ts[i].lex;
    var b := Pasting.ExpandTokens(toks, l, p.next);
    ReplacementTokens(defs, l, p.next);
    Pasting.BuildIsFresh(toks, |toks|, l, p.next);
    EndlessSpliced(defs, ts, i, p.next, head, b.out, b.next);
  }

  lemma NameExpands(defs: Defs, p: Place, q: Place, head: bool)
    requires Endless(defs, p.tokens, p.index, p.next, head) && ExpandsOnce(defs, p, q)
    ensures p.index < |p.tokens| && Expands(defs, p.tokens[p.index].lex.text)
    ensures var m := defs[p.tokens[p.index].lex.text];
            forall k :: 0 <= k < |m.body| ==> Pasting.Kept(m.body[k].lex.kind)
    ensures var ts, i := p.tokens, p.index;
            var b := Pasting.ExpandTokens(Lexemes(defs[ts[i].lex.text].body), ts[i].lex, p.next);
            q.tokens == ts[..i] + b.out + ts[i + 1..] && q.index == i && q.next == b.next
  {
    hide Ends, Diverges, NoHash, Apart, PlainIn, Pasting.BuildUpTo;
    PlainHere(defs, p.tokens, p.index);
  }

  lemma EndlessSpliced(defs: Defs, ts: seq<Token>, i: nat, next: nat, head: bool, out: seq<Token>, next': nat)
    requires Endless(defs, ts, i, next, head) && i < |ts| && Expansion.Replaces(defs, ts[i].lex, head)
    requires Lexemes(out) == Replacement(defs, ts[i].lex) && NoHash(out) && next <= next'
    requires forall k :: 0 <= k < |out| ==> next <= out[k].id
    ensures Endless(defs, ts[..i] + out + ts[i + 1..], i, next', true)
  {
    hide Ends, Diverges, NoHash, Apart, PlainIn;
    EndlessHere(defs, ts, i, next, head);
    GoesOn(defs, ts[i].lex, Lexemes(ts[i + 1..]), head);
    Spliced(defs, ts, i, next, out, next');
    PlainSpliced(defs, ts, i, out);
    var ts' := ts[..i] + out + ts[i + 1..];
    assert ts'[i..] == out + ts[i + 1..];
    assert Lexemes(ts'[i..]) == Lexemes(out) + Lexemes(ts[i + 1..]);
  }

  lemma Spliced(defs: Defs, ts: seq<Token>, i: nat, next: nat, out: seq<Token>, next': nat)
    requires i < |ts| && NoHash(ts) && NoHash(out) && Apart(defs, ts, next) && next <= next'
    requires forall k :: 0 <= k < |out| ==> next <= out[k].id
    ensures var ts' := ts[..i] + out + ts[i + 1..]; NoHash(ts') && Apart(defs, ts', next')
  {
    var ts' := ts[..i] + out + ts[i + 1..];
    forall k | 0 <= k < |ts'| ensures ts'[k] in ts || ts'[k] in out {
    }
    assert forall t :: t in ts ==> !t.Is(Hash);
    forall n, k | n in defs && 0 <= k < |ts'| ensures defs[n].token.id != ts'[k].id {
      if ts'[k] in out {
      } else {
        assert ts'[k] in ts;
      }
    }
  }

  lemma NotAtEnd(defs: Defs, p: Place, head: bool)
    requires Endless(defs, p.tokens, p.index, p.next, head)
    ensures p.index < |p.tokens|
  {
    EndlessHere(defs, p.tokens, p.index, p.next, head);
  }

  lemma {:induction false} EndlessChain(defs: Defs, ps: seq<Place>)
    requires Chain(defs, ps) && Endless(defs, ps[0].tokens, ps[0].index, ps[0].next, false)
    requires ps[0].index < |ps[0].tokens| && ps[0].tokens[ps[0].index].Is(Name)
    ensures var p := ps[|ps| - 1]; Endless(defs, p.tokens, p.index, p.next, |ps| > 1)
  {
    hide Endless, ExpandsOnce;
    if |ps| > 1 {
      EndlessChain(defs, ps[..|ps| - 1]);
      NotAtEnd(defs, ps[|ps| - 2], |ps| > 2);
      EndlessExpands(defs, ps[|ps| - 2], ps[|ps| - 1], |ps| > 2);
    }
  }

  // ----- the rounds -----

  /** Between two rounds, outside of directives and in text that is not skipped. */
  ghost predicate EndlessAt(a: Snap) {
    && !a.scan.doCpp && a.scan.doExpansion && a.levels.skip == 0
    && Endless(a.defs, a.tokens, a.index, a.next, false)
  }

  lemma {:induction false} EndlessRound(env: Env, a: Snap, how: How, b: Snap)
    requires EndlessAt(a) && Round(env, a, how, b)
    ensures EndlessAt(b)
  {
    hide Endless, Settled, Effect, Chain;
    var ts, i := a.tokens, a.index;
    EndlessHere(a.defs, ts, i, a.next, false);
    match how
    case Dropped =>
      EndlessNext(a.defs, ts, i, a.next, false);
    case Advanced =>
      EndlessNext(a.defs, ts, i, a.next, false);
    case Expanded(ps) =>
      EndlessChain(a.defs, ps);
      EndlessHere(a.defs, b.tokens, b.index, b.next, true);
      EndlessSettles(a.defs, b.tokens, b.index, b.next);
    case _ =>
  }

  lemma EndlessSettles(defs: Defs, ts: seq<Token>, i: nat, next: nat)
    requires Endless(defs, ts, i, next, true) && i < |ts| && !Expands(defs, ts[i].lex.text)
    ensures Endless(defs, ts, i, next, false)
  {
    LexemesSplit(ts, i);
    HeadDoesNotMatter(defs, ts[i].lex, Lexemes(ts[i + 1..]));
  }

  lemma {:induction false} EndlessRun(env: Env, run: Run)
    requires IsRun(env, run) && EndlessAt(First(run))
    ensures EndlessAt(Last(run))
  {
    hide EndlessAt, Round;
    if run.Then? {
      EndlessRun(env, run.before);
      EndlessRound(env, Last(run.before), run.how, run.s);
    }
  }

  lemma EndlessNeverEnds(env: Env, a: Snap, stop: Stop)
    requires EndlessAt(a)
    ensures !Ended(env, a) && !Crashes(env, a, stop)
  {
    hide Endless, Settled, Effect, Chain;
    EndlessHere(a.defs, a.tokens, a.index, a.next, false);
    if stop.Expanding? && Stops(env, a, stop) {
      CrashFree(a, stop.places);
    }
  }

  lemma CrashFree(a: Snap, ps: seq<Place>)
    requires EndlessAt(a) && a.index < |a.tokens| && a.tokens[a.index].Is(Name) && Chain(a.defs, ps) && Begins(a, ps)
    ensures !Undefined(ps[|ps| - 1].tokens, ps[|ps| - 1].index, a.defs)
  {
    hide Endless, Settled, Chain;
    EndlessChain(a.defs, ps);
    var p := ps[|ps| - 1];
    EndlessHere(a.defs, p.tokens, p.index, p.next, |ps| > 1);
  }

  /** Text whose expansion goes on for ever makes stage 2 run out of steps, however many it is given. */
  lemma OutOfStepsForEver(env: Env, start: Snap, all: nat, r: Verdict, run: Run, stop: Stop, left: nat)
    requires EndlessAt(start) && Answers(env, start, all, r, run, stop, left)
    ensures r.OutOfSteps?
  {
    hide EndlessAt, IsRun, Stops, Crashes, Rejected;
    EndlessRun(env, run);
    EndlessNeverEnds(env, Last(run), stop);
  }

  /** Plain macros that cannot be ranked: the name of one of them, on its own, makes stage 2 run out of
      any number of steps. With macros that can be ranked it ends on all text without directives. */
  lemma UnrankedRunsOn(defs: Defs) returns (name: string)
    requires Plain(defs) && BodiesNamesOnly(defs) && !exists r :: Ranked(defs, r)
    ensures forall t: Token, next, clock ::
              t.lex == NameOf(name) && Apart(defs, [t], next) ==> EndlessAt(Alone(defs, t, next, clock))
  {
    var _ := EndsIffRanked(defs);
    name :| Diverges(defs, [NameOf(name)], false);
    forall t: Token, next, clock | t.lex == NameOf(name) && Apart(defs, [t], next)
      ensures EndlessAt(Alone(defs, t, next, clock))
    {
      AllPlain(defs, [t]);
      assert [t][0..] == [t] && Lexemes([t]) == [NameOf(name)];
    }
  }

  /** The state in which stage 2 begins on a single token. */
  function Alone(defs: Defs, t: Token, next: nat, clock: nat): Snap {
    Snap([t], 0, next, BEGIN, [], defs, Conditionals.START, clock)
  }
}
