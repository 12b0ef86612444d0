/** Stage 2 of the preprocessor: its flags, its surroundings, and its runs over plain text. */
module StageTwo {
  import opened Options
  import opened Tokens
  import opened MacroCalls
  import opened Expansion
  import opened Ownership
  import opened Replacing
  import Conditionals
  import Pasting
  import Stage = StageOne
  import StageOneFacts

  // ----- flags -----

  datatype Scan = Scan(isEol: bool, doCpp: bool, doExpansion: bool, skipParen: bool, skipAll: bool)

  const BEGIN := Scan(true, false, true, false, false)

  /** The flags after looking at a token of type `k`. */
  function Look(s: Scan, k: Kind): Scan {
    if k == Hash then if s.isEol then s.(doCpp := true, isEol := false) else s
    else if k == Eol then s.(isEol := true, skipAll := false, doExpansion := true)
    else if !s.doCpp then s.(isEol := false)
    else
      var s := s.(isEol := false);
      match k
      case Define => s.(doExpansion := false, skipAll := true)
      case Defined => s.(skipParen := true, doExpansion := false)
      case Ifdef => s.(doExpansion := false)
      case Ifndef => s.(doExpansion := false)
      case Undef => s.(doExpansion := false)
      case LParen => if s.skipAll then s else if s.skipParen then s.(skipParen := false) else s.(doExpansion := true)
      case Name => s
      case _ => s.(doExpansion := !s.skipAll)
  }

  // ----- the parser and the file system -----

  /** What the parser makes of the tokens of a directive. */
  datatype Directive =
    | Group(g: Conditionals.Group)
    | IfDefined(name: string, negated: bool)
    | DefineMacro(head: Lexeme, sig: Option<seq<Lexeme>>, body: seq<Lexeme>)
    | UndefMacro(name: string)
    | IncludeFile(file: Lexeme)
    | NoEffect

  /** What opening and scanning an include file gives. */
  datatype Opened = NotFound | IncludedOnce | ScanFailed | Scanned(ls: seq<Lexeme>)

  /** The code outside the model; the first argument of each is the number of earlier requests,
      so that the same request may be answered differently later. */
  datatype Env = Env(parse: (nat, seq<Token>, Defs) -> Option<Directive>, open: (nat, Lexeme) -> Opened)

  /** Stored macro bodies contain no comment, attribute or white space. */
  ghost predicate CleanEnv(env: Env) {
    forall c, l, defs :: env.parse(c, l, defs).Some? ==> CleanDirective(env.parse(c, l, defs).value)
  }

  ghost predicate CleanDirective(d: Directive) {
    d.DefineMacro? ==> forall k :: 0 <= k < |d.body| ==> !Blank(d.body[k].kind)
  }

  /** `Stuck`: the source leaves defined behaviour; `OutOfSteps`: the given number of steps is used up. */
  datatype Verdict = Done | Failed | Stuck | OutOfSteps

  lemma StageOneClean(input: seq<Token>, next: nat)
    ensures Clean(Stage.Result(input, next))
  {
    StageOneFacts.ResultHasNoBlanks(input, next);
  }

  // ----- directives -----

  /** A list handed to the parser: from the HASH to its only line end. */
  ghost predicate IsDirective(l: seq<Token>) {
    && |l| >= 2 && l[0].Is(Hash) && l[|l| - 1].Is(Eol)
    && NoEol(l[..|l| - 1])
  }

  /** The directive tokens collected so far. */
  ghost predicate Collected(s: Scan, pending: seq<Token>) {
    && (s.doCpp <==> pending != [])
    && (pending != [] ==> pending[0].Is(Hash))
    && NoEol(pending)
  }

  lemma CollectsDirective(scan: Scan, directive: seq<Token>, t: Token)
    requires Collected(scan, directive) && Look(scan, t.lex.kind).doCpp
    ensures Look(scan, t.lex.kind).isEol ==> IsDirective(directive + [t])
    ensures !Look(scan, t.lex.kind).isEol ==> Collected(Look(scan, t.lex.kind), directive + [t])
  {
    var pending := directive + [t];
    assert pending[..|pending| - 1] == directive;
  }

  lemma LookKeeps(scan: Scan, directive: seq<Token>, k: Kind)
    requires Collected(scan, directive)
    ensures k != Hash || !Look(scan, k).doCpp ==> Collected(Look(scan, k), directive)
  {
  }

  lemma NothingCollected(s: Scan)
    ensures Collected(s.(doCpp := false), [])
  {
  }

  lemma StageTwoBegins(ts: seq<Token>)
    ensures NoEol(ts[..0]) && Collected(BEGIN, [])
  {
  }

  // ----- the stream in a round -----

  /** The token at the cursor goes from the stream to the directive. */
  lemma TokenMoves(outer: multiset<Token>, directive: seq<Token>, ts: seq<Token>, i: nat)
    requires i < |ts|
    ensures outer + Bag(directive) + Bag(ts) == outer + Bag(directive + [ts[i]]) + Bag(ts[..i] + ts[i + 1..])
  {
    assert ts == ts[..i] + [ts[i]] + ts[i + 1..];
  }

  /** Deleting the token at the cursor. */
  lemma DropKeeps(ts: seq<Token>, i: nat, ts': seq<Token>, i': nat)
    requires i < |ts| && Clean(ts) && NoEol(ts[..i])
    requires ts' == ts[..i] + ts[i + 1..] && (i' == i || i' + 1 == i) && i' <= |ts'|
    ensures Clean(ts') && NoEol(ts'[..i'])
  {
    forall k | 0 <= k < i' ensures !ts'[k].Is(Eol) {
      assert ts'[k] == ts[..i][k];
    }
  }

  lemma StepKeeps(ts: seq<Token>, i: nat)
    requires i < |ts| && NoEol(ts[..i]) && !ts[i].Is(Eol)
    ensures NoEol(ts[..i + 1])
  {
    forall k | 0 <= k < i + 1 ensures !ts[k].Is(Eol) {
      if k < i {
        assert ts[k] == ts[..i][k];
      }
    }
  }

  /** `inc`, fully processed, was inserted before the cursor, which stays on its token. */
  ghost predicate Included(ts: seq<Token>, i: nat, inc: seq<Token>, ts': seq<Token>, i': nat) {
    && i <= |ts| && ts' == ts[..i] + inc + ts[i..] && i' == i + |inc|
    && Clean(inc) && NoEol(inc)
  }

  lemma NothingIncluded(ts: seq<Token>, i: nat)
    requires i <= |ts|
    ensures Included(ts, i, [], ts, i)
  {
    assert ts == ts[..i] + [] + ts[i..];
  }

  lemma IncludedHere(ts: seq<Token>, i: nat, inc: seq<Token>, ts': seq<Token>, i': nat)
    requires i <= |ts| && ts' == ts[..i] + inc + ts[i..] && i' == i + |inc| && Clean(inc) && NoEol(inc)
    ensures Included(ts, i, inc, ts', i')
  {
  }

  lemma IncludedKeeps(ts: seq<Token>, i: nat, inc: seq<Token>, ts': seq<Token>, i': nat)
    requires Included(ts, i, inc, ts', i') && Clean(ts) && NoEol(ts[..i])
    ensures i' <= |ts'| && Clean(ts') && NoEol(ts'[..i'])
    ensures ts'[i'..] == ts[i..]
  {
    forall k | 0 <= k < i' ensures !ts'[k].Is(Eol) {
      if k < i {
        assert ts'[k] == ts[..i][k];
      }
    }
  }

  // ----- storing macros -----

  /** New tokens for `ls`, with addresses from `next` on. */
  function Allocate(ls: seq<Lexeme>, next: nat): (ts: seq<Token>)
    ensures |ts| == |ls|
    ensures forall k :: 0 <= k < |ts| ==> ts[k] == Token(next + k, ls[k])
  {
    seq(|ls|, k requires 0 <= k < |ls| => Token(next + k, ls[k]))
  }

  lemma DefineKeeps(live: multiset<Token>, defs: Defs, next: nat, name: string, m: Macro, next': nat)
    requires Heap(live, defs, next) && CleanDefs(defs) && Clean(m.body) && next <= next'
    requires forall t :: t in MacroTokens(m) ==> next <= t.id < next'
    ensures Heap(live, defs[name := m], next') && CleanDefs(defs[name := m])
  {
    var defs' := defs[name := m];
    forall n, t | n in defs' && t in MacroTokens(defs'[n])
      ensures t.id < next' && forall u :: u in live ==> t.id != u.id
    {
      if n == name {
        assert t in MacroTokens(m);
      }
    }
  }

  lemma UndefKeeps(live: multiset<Token>, defs: Defs, next: nat, name: string)
    requires Heap(live, defs, next) && CleanDefs(defs)
    ensures Heap(live, defs - {name}, next) && CleanDefs(defs - {name})
  {
    var defs' := defs - {name};
    forall n | n in defs' ensures n in defs && defs'[n] == defs[n] {
    }
  }

  // ----- text without directives -----

  /** The macros that expanding `ts` can reach are all in `use`. */
  ghost predicate InPlay(defs: Defs, use: Defs, ts: seq<Token>) {
    Part(defs, use) && forall t :: t in ts && t.lex.text in defs ==> t.lex.text in use
  }

  lemma InPlayHere(defs: Defs, use: Defs, ts: seq<Token>, i: nat)
    requires InPlay(defs, use, ts) && i < |ts|
    ensures MacroAt(ts, i, defs) == MacroAt(ts, i, use)
    ensures Expands(defs, ts[i].lex.text) <==> Expands(use, ts[i].lex.text)
  {
  }

  lemma InPlaySpliced(defs: Defs, use: Defs, ts: seq<Token>, i: nat, out: seq<Token>)
    requires InPlay(defs, use, ts) && i < |ts| && Expands(use, ts[i].lex.text)
    requires Lexemes(out) == Replacement(use, ts[i].lex)
    ensures InPlay(defs, use, ts[..i] + out + ts[i + 1..])
  {
    forall t | t in out && t.lex.text in defs ensures t.lex.text in use {
      var k :| 0 <= k < |out| && out[k] == t;
      assert t.lex == Lexemes(out)[k] == Relocate(use[ts[i].lex.text].body[k].lex, ts[i].lex);
    }
  }

  /** All macros that expanding `ts` can reach are plain. */
  ghost predicate PlainIn(defs: Defs, ts: seq<Token>) {
    exists use :: Plain(use) && InPlay(defs, use, ts)
  }

  lemma PlainHere(defs: Defs, ts: seq<Token>, i: nat)
    requires PlainIn(defs, ts) && i < |ts| && ts[i].lex.text in defs
    ensures var m := defs[ts[i].lex.text];
            m.sig.None? && forall k :: 0 <= k < |m.body| ==> Pasting.Kept(m.body[k].lex.kind)
  {
    var use :| Plain(use) && InPlay(defs, use, ts);
    assert ts[i].lex.text in use && defs[ts[i].lex.text] == use[ts[i].lex.text];
  }

  lemma PlainSpliced(defs: Defs, ts: seq<Token>, i: nat, out: seq<Token>)
    requires PlainIn(defs, ts) && i < |ts| && Expands(defs, ts[i].lex.text)
    requires Lexemes(out) == Replacement(defs, ts[i].lex)
    ensures PlainIn(defs, ts[..i] + out + ts[i + 1..])
  {
    var use :| Plain(use) && InPlay(defs, use, ts);
    InPlayHere(defs, use, ts, i);
    InPlaySpliced(defs, use, ts, i, out);
  }

  lemma PlainSome(defs: Defs, ts: seq<Token>, some: seq<Token>)
    requires PlainIn(defs, ts) && forall t :: t in some ==> t in ts
    ensures PlainIn(defs, some)
  {
    var use :| Plain(use) && InPlay(defs, use, ts);
    assert InPlay(defs, use, some);
  }

  lemma AllPlain(defs: Defs, ts: seq<Token>)
    requires Plain(defs)
    ensures PlainIn(defs, ts)
  {
    assert InPlay(defs, defs, ts);
  }

  /** A stream without HASH, not skipped, with enough steps for its weight; the macros it can reach are ranked. */
  ghost predicate PlainText(defs: Defs, use: Defs, rank: string -> nat, levels: Conditionals.Levels, ts: seq<Token>,
                            steps: nat)
  {
    Ranked(use, rank) && InPlay(defs, use, ts) && NoHash(ts) && levels.skip == 0
    && 3 * TextWeight(use, rank, Lexemes(ts)) <= steps
  }

  ghost predicate NoHash(ts: seq<Token>) {
    forall k :: 0 <= k < |ts| ==> !ts[k].Is(Hash)
  }

  /** Left alone wherever the scan comes across it. */
  ghost predicate Quiet(defs: Defs, t: Token) {
    !t.Is(Eol) && !Expansion.Replaces(defs, t.lex, false)
  }

  /** `ts[i..]` is still to be scanned; enough steps are left for it. */
  ghost predicate Scanning(defs: Defs, use: Defs, rank: string -> nat, goal: seq<Lexeme>, ts: seq<Token>, i: nat,
                           steps: int, head: bool) {
    && Ranked(use, rank) && InPlay(defs, use, ts) && NoHash(ts) && i <= |ts|
    && (forall k :: 0 <= k < i ==> Quiet(use, ts[k]))
    && Lexemes(ts[..i]) + Rewrite(use, rank, Lexemes(ts[i..]), head) == goal
    && 3 * TextWeight(use, rank, Lexemes(ts[i..])) <= steps
  }

  /** The final line end was deleted; the last kept token is seen once more. */
  ghost predicate Rescanning(defs: Defs, use: Defs, rank: string -> nat, goal: seq<Lexeme>, ts: seq<Token>, i: nat,
                             steps: int) {
    && Ranked(use, rank) && InPlay(defs, use, ts) && NoHash(ts) && i < |ts| == i + 1 && steps >= 1
    && Lexemes(ts) == goal && (forall k :: 0 <= k < |ts| ==> Quiet(use, ts[k]))
  }

  ghost predicate InText(defs: Defs, use: Defs, rank: string -> nat, goal: seq<Lexeme>, ts: seq<Token>, i: nat,
                         steps: int) {
    Scanning(defs, use, rank, goal, ts, i, steps, false) || Rescanning(defs, use, rank, goal, ts, i, steps)
  }

  lemma PlainTextFacts(defs: Defs, use: Defs, rank: string -> nat, levels: Conditionals.Levels, ts: seq<Token>,
                       steps: nat)
    requires PlainText(defs, use, rank, levels, ts, steps)
    ensures levels.skip == 0 && Ranked(use, rank)
  {
  }

  lemma TextBegins(defs: Defs, use: Defs, rank: string -> nat, levels: Conditionals.Levels, ts: seq<Token>, steps: nat)
    requires PlainText(defs, use, rank, levels, ts, steps)
    ensures InText(defs, use, rank, Rewrite(use, rank, Lexemes(ts), false), ts, 0, steps)
  {
    hide Ranked, InPlay, Rewrite, TextWeight, NoHash;
    assert ts[0..] == ts;
    assert Lexemes(ts[..0]) == [];
    assert [] + Rewrite(use, rank, Lexemes(ts), false) == Rewrite(use, rank, Lexemes(ts), false);
  }

  lemma TextEnds(defs: Defs, use: Defs, rank: string -> nat, goal: seq<Lexeme>, ts: seq<Token>, i: nat, steps: int)
    requires InText(defs, use, rank, goal, ts, i, steps) && i >= |ts|
    ensures Lexemes(ts) == goal
  {
    assert ts[..i] == ts && ts[i..] == [];
    assert Lexemes(ts) + Rewrite(use, rank, [], false) == Lexemes(ts);
  }

  lemma LexemesSplit(ts: seq<Token>, i: nat)
    requires i < |ts|
    ensures Lexemes(ts[i..]) == [ts[i].lex] + Lexemes(ts[i + 1..])
    ensures Lexemes(ts[i..])[1..] == Lexemes(ts[i + 1..])
    ensures Lexemes(ts[..i + 1]) == Lexemes(ts[..i]) + [ts[i].lex]
  {
  }

  /** Some steps are left as long as there is text. */
  lemma TextNeedsSteps(defs: Defs, use: Defs, rank: string -> nat, goal: seq<Lexeme>, ts: seq<Token>, i: nat,
                       steps: int)
    requires InText(defs, use, rank, goal, ts, i, steps) && i < |ts|
    ensures steps >= 1 && !ts[i].Is(Hash)
  {
    LexemesSplit(ts, i);
  }

  /** In text no directive begins and names are expanded. */
  lemma LookInText(defs: Defs, use: Defs, rank: string -> nat, goal: seq<Lexeme>, ts: seq<Token>, i: nat, steps: int,
                   text: bool, scan: Scan)
    requires i < |ts| && (text ==> InText(defs, use, rank, goal, ts, i, steps) && !scan.doCpp && scan.doExpansion)
    ensures var s := Look(scan, ts[i].lex.kind); text ==> steps >= 1 && !s.doCpp && s.doExpansion
  {
    if text {
      TextNeedsSteps(defs, use, rank, goal, ts, i, steps);
    }
  }

  lemma ScanningNeedsSteps(defs: Defs, use: Defs, rank: string -> nat, goal: seq<Lexeme>, ts: seq<Token>, i: nat,
                           steps: int, head: bool)
    requires Scanning(defs, use, rank, goal, ts, i, steps, head) && i < |ts|
    ensures steps >= 3
  {
    LexemesSplit(ts, i);
  }

  lemma InTextMore(defs: Defs, use: Defs, rank: string -> nat, goal: seq<Lexeme>, ts: seq<Token>, i: nat, steps: int,
                   steps': int)
    requires InText(defs, use, rank, goal, ts, i, steps) && steps <= steps'
    ensures InText(defs, use, rank, goal, ts, i, steps')
  {
  }

  /** Plain text never leaves defined behaviour. */
  lemma TextIsDefined(defs: Defs, use: Defs, rank: string -> nat, goal: seq<Lexeme>, ts: seq<Token>, i: nat, steps: int,
                      head: bool)
    requires Scanning(defs, use, rank, goal, ts, i, steps, head)
    ensures !Undefined(ts, i, defs)
  {
  }

  /** A token that is not replaced is stepped over. */
  lemma TextKeeps(defs: Defs, use: Defs, rank: string -> nat, goal: seq<Lexeme>, ts: seq<Token>, i: nat, steps: int)
    requires InText(defs, use, rank, goal, ts, i, steps) && i < |ts| && Quiet(defs, ts[i])
    ensures InText(defs, use, rank, goal, ts, i + 1, steps - 1)
  {
    LexemesSplit(ts, i);
    var rest := Lexemes(ts[i + 1..]);
    if Scanning(defs, use, rank, goal, ts, i, steps, false) {
      assert Lexemes(ts[..i]) + ([ts[i].lex] + Rewrite(use, rank, rest, false))
          == Lexemes(ts[..i + 1]) + Rewrite(use, rank, rest, false);
    } else {
      assert ts[..i + 1] == ts && rest == [];
      assert Lexemes(ts) + Rewrite(use, rank, [], false) == Lexemes(ts);
    }
  }

  /** A line end is deleted; at the end of the stream the last kept token comes up again. */
  lemma TextDropsEol(defs: Defs, use: Defs, rank: string -> nat, goal: seq<Lexeme>, ts: seq<Token>, i: nat, steps: int,
                     ts': seq<Token>, i': nat)
    requires InText(defs, use, rank, goal, ts, i, steps) && i < |ts| && ts[i].Is(Eol)
    requires ts' == ts[..i] + ts[i + 1..] && i' == if i < |ts'| then i else if |ts'| > 0 then |ts'| - 1 else 0
    ensures InText(defs, use, rank, goal, ts', i', steps - 1)
  {
    LexemesSplit(ts, i);
    var rest := Lexemes(ts[i + 1..]);
    assert Lexemes(ts[..i]) + Rewrite(use, rank, rest, false) == goal;
    assert ts'[..i] == ts[..i] && ts'[i..] == ts[i + 1..];
    if i == |ts'| {
      assert rest == [] && ts' == ts[..i];
      assert Lexemes(ts') + Rewrite(use, rank, [], false) == Lexemes(ts');
      assert steps - 1 >= 1;
    }
  }

  lemma RewriteReplaces(use: Defs, rank: string -> nat, l: Lexeme, rest: seq<Lexeme>, head: bool)
    requires Ranked(use, rank) && Expansion.Replaces(use, l, head)
    ensures Rewrite(use, rank, [l] + rest, head) == Rewrite(use, rank, Replacement(use, l) + rest, true)
    ensures TextWeight(use, rank, Replacement(use, l) + rest) == TextWeight(use, rank, [l] + rest) - 1
  {
    ReplacementWeight(use, rank, l);
    TextWeightConcat(use, rank, Replacement(use, l), rest);
    assert ([l] + rest)[1..] == rest;
  }

  lemma TextSplices(defs: Defs, use: Defs, rank: string -> nat, goal: seq<Lexeme>, ts: seq<Token>, i: nat, steps: int,
                    head: bool, out: seq<Token>)
    requires Scanning(defs, use, rank, goal, ts, i, steps, head) && i < |ts|
    requires Expansion.Replaces(use, ts[i].lex, head) && Lexemes(out) == Replacement(use, ts[i].lex) && NoHash(out)
    ensures Scanning(defs, use, rank, goal, ts[..i] + out + ts[i + 1..], i, steps - 3, true)
  {
    hide InPlay, Ranked, Rewrite, TextWeight;
    var ts', l, rest := ts[..i] + out + ts[i + 1..], ts[i].lex, Lexemes(ts[i + 1..]);
    assert ts'[..i] == ts[..i] && ts'[i..] == out + ts[i + 1..];
    assert Lexemes(ts'[i..]) == Replacement(use, l) + rest;
    assert Lexemes(ts[i..]) == [l] + rest;
    InPlaySpliced(defs, use, ts, i, out);
    RewriteReplaces(use, rank, l, rest, head);
  }

  lemma ReplacementTokens(defs: Defs, l: Lexeme, next: nat)
    requires Expands(defs, l.text)
    requires forall k :: 0 <= k < |defs[l.text].body| ==> Pasting.Kept(defs[l.text].body[k].lex.kind)
    ensures var out := Pasting.ExpandTokens(Lexemes(defs[l.text].body), l, next).out;
            Lexemes(out) == Replacement(defs, l) && NoHash(out)
  {
    var toks := Lexemes(defs[l.text].body);
    var out := Pasting.ExpandTokens(toks, l, next).out;
    Pasting.PlainBody(toks, |toks|, l, next);
    forall k | 0 <= k < |out| ensures !out[k].Is(Hash) {
      assert out[k].lex == Relocate(toks[k], l);
    }
  }

  /** An expansion goes on to what was inserted, and uses up weight. */
  lemma TextExpands(defs: Defs, use: Defs, rank: string -> nat, goal: seq<Lexeme>, ts: seq<Token>, i: nat, steps: int,
                    head: bool, ts': seq<Token>, live: multiset<Token>, live': multiset<Token>, next: nat, next': nat,
                    i': nat)
    requires Scanning(defs, use, rank, goal, ts, i, steps, head)
    requires Substituted(ts, i, live, next, defs, ts', i', live', next')
    requires head || ts[i].Is(Name)
    ensures i' == i && Scanning(defs, use, rank, goal, ts', i, steps - 3, true)
  {
    hide CallReplaced, Bag, Rewrite, TextWeight;
    var l := ts[i].lex;
    InPlayHere(defs, use, ts, i);
    ReplacementTokens(use, l, next);
    TextSplices(defs, use, rank, goal, ts, i, steps, head,
                Pasting.ExpandTokens(Lexemes(use[l.text].body), l, next).out);
  }

  /** Where nothing more is expanded the scan goes on as from any other token. */
  lemma TextSettles(defs: Defs, use: Defs, rank: string -> nat, goal: seq<Lexeme>, ts: seq<Token>, i: nat, steps: int)
    requires Scanning(defs, use, rank, goal, ts, i, steps, true) && Settled(ts, i, defs)
    requires forall k, n :: 0 <= k < |ts| && n in defs ==> defs[n].token.id != ts[k].id
    ensures InText(defs, use, rank, goal, ts, i, steps)
  {
    if i < |ts| {
      assert !Expands(defs, ts[i].lex.text);
      LexemesSplit(ts, i);
    }
  }

  /** A token about to be replaced is not one seen again at the end. */
  lemma TextScans(defs: Defs, use: Defs, rank: string -> nat, goal: seq<Lexeme>, ts: seq<Token>, i: nat, steps: int)
    requires InText(defs, use, rank, goal, ts, i, steps) && i < |ts| && Expansion.Replaces(defs, ts[i].lex, false)
    ensures Scanning(defs, use, rank, goal, ts, i, steps, false)
  {
    assert !Quiet(defs, ts[i]);
  }

  /** In plain text a name is either expanded or settled. */
  lemma TextDecides(defs: Defs, use: Defs, rank: string -> nat, goal: seq<Lexeme>, ts: seq<Token>, i: nat, steps: int)
    requires InText(defs, use, rank, goal, ts, i, steps) && i < |ts|
    requires forall k, n :: 0 <= k < |ts| && n in defs ==> defs[n].token.id != ts[k].id
    ensures !Undefined(ts, i, defs)
    ensures Expands(defs, ts[i].lex.text) <==> !Settled(ts, i, defs)
  {
  }
}
