/** What stage 2 leaves of a stretch of text between directives, and of text that is skipped. */
module Stretches {
  import opened Tokens
  import opened Expansion
  import opened Replacing
  import opened StageTwo
  import opened StageTwoRuns
  import opened StageTwoFacts
  import opened Divergence
  import Ownership
  import Pasting

  // ----- what the scan leaves, whatever the macros are -----

  ghost function Scans(defs: Defs, ls: seq<Lexeme>, head: bool, n: nat): seq<Lexeme>
    requires Ends(defs, ls, head, n)
    decreases n
  {
    if ls == [] then []
    else if Expansion.Replaces(defs, ls[0], head) then Scans(defs, Replacement(defs, ls[0]) + ls[1..], true, n - 1)
    else if ls[0].kind == Eol then Scans(defs, ls[1..], false, n - 1)
    else [ls[0]] + Scans(defs, ls[1..], false, n - 1)
  }

  lemma {:induction false} ScansIsRewrite(defs: Defs, rank: string -> nat, ls: seq<Lexeme>, head: bool, n: nat)
    requires Ranked(defs, rank) && Ends(defs, ls, head, n)
    ensures Scans(defs, ls, head, n) == Rewrite(defs, rank, ls, head)
    decreases n
  {
    if ls != [] {
      if Expansion.Replaces(defs, ls[0], head) {
        ScansIsRewrite(defs, rank, Replacement(defs, ls[0]) + ls[1..], true, n - 1);
      } else {
        ScansIsRewrite(defs, rank, ls[1..], false, n - 1);
      }
    }
  }

  /** Macros that a text cannot reach do not matter to what its scan leaves. */
  lemma {:induction false} ScansWithin(defs: Defs, use: Defs, ls: seq<Lexeme>, head: bool, n: nat)
    requires Part(defs, use) && forall l :: l in ls && l.text in defs ==> l.text in use
    requires Ends(defs, ls, head, n) && Ends(use, ls, head, n)
    ensures Scans(defs, ls, head, n) == Scans(use, ls, head, n)
    decreases n
  {
    if ls != [] {
      assert ls[0] in ls && (Expands(defs, ls[0].text) <==> Expands(use, ls[0].text));
      if Expansion.Replaces(defs, ls[0], head) {
        ReplacementWithin(defs, use, ls[0]);
        ScansWithin(defs, use, Replacement(use, ls[0]) + ls[1..], true, n - 1);
      } else {
        ScansWithin(defs, use, ls[1..], false, n - 1);
      }
    }
  }

  lemma ScanStep(defs: Defs, l: Lexeme, rest: seq<Lexeme>, head: bool, n: nat)
    requires Ends(defs, [l] + rest, head, n)
    ensures n > 0
    ensures if Expansion.Replaces(defs, l, head) then
              && Ends(defs, Replacement(defs, l) + rest, true, n - 1)
              && Scans(defs, [l] + rest, head, n) == Scans(defs, Replacement(defs, l) + rest, true, n - 1)
            else
              && Ends(defs, rest, false, n - 1)
              && Scans(defs, [l] + rest, head, n) ==
                 (if l.kind == Eol then [] else [l]) + Scans(defs, rest, false, n - 1)
  {
    assert ([l] + rest)[1..] == rest;
  }

  lemma HeadIgnored(defs: Defs, ls: seq<Lexeme>, n: nat)
    requires Ends(defs, ls, true, n) && (ls != [] ==> !Expands(defs, ls[0].text))
    ensures Ends(defs, ls, false, n) && Scans(defs, ls, false, n) == Scans(defs, ls, true, n)
  {
  }

  // ----- expansions one after the other -----

  /** Left alone, and no call of a macro begins with it. */
  predicate Inert(defs: Defs, text: string) {
    text in defs ==> defs[text].sig.None? && !Expands(defs, text)
  }

  /** The `m` tokens from `i` on are text, the macros it can reach are plain, and what follows is none of them. */
  ghost predicate Segment(defs: Defs, ts: seq<Token>, next: nat, i: nat, m: nat) {
    && Apart(defs, ts, next) && i + m <= |ts| && NoHash(ts[i..i + m]) && PlainIn(defs, ts[i..i + m])
    && (i + m < |ts| ==> Inert(defs, ts[i + m].lex.text))
  }

  function At(ts: seq<Token>, i: nat, m: nat): seq<Lexeme>
    requires i + m <= |ts|
  {
    Lexemes(ts[i..i + m])
  }

  lemma AtFirst(ts: seq<Token>, i: nat, m: nat)
    requires 0 < m && i + m <= |ts|
    ensures At(ts, i, m) == [ts[i].lex] + At(ts, i + 1, m - 1)
  {
    assert ts[i..i + m] == [ts[i]] + ts[i + 1..i + m];
  }

  lemma SegmentSettled(defs: Defs, ts: seq<Token>, next: nat, i: nat, m: nat)
    requires Segment(defs, ts, next, i, m)
    ensures m == 0 ==> Settled(ts, i, defs)
    ensures m > 0 ==> (Settled(ts, i, defs) <==> !Expands(defs, ts[i].lex.text)) && !ts[i].Is(Hash)
  {
    if m > 0 {
      assert ts[i..i + m][0] == ts[i];
      if ts[i].lex.text in defs {
        PlainHere(defs, ts[i..i + m], 0);
      }
    }
  }

  /** The place after the token at the cursor was replaced by its macro's body. */
  ghost function BodyPut(defs: Defs, p: Place): Place
    requires p.index < |p.tokens| && p.tokens[p.index].lex.text in defs
  {
    var i, t := p.index, p.tokens[p.index];
    var b := Pasting.ExpandTokens(Lexemes(defs[t.lex.text].body), t.lex, p.next);
    Place(p.tokens[..i] + b.out + p.tokens[i + 1..], i, p.live + Ownership.Bag(b.out) - multiset{t}, b.next)
  }

  lemma ReplacedOnce(defs: Defs, p: Place, m: nat)
    requires 0 < m <= |p.tokens| - p.index && Expands(defs, p.tokens[p.index].lex.text)
    requires Segment(defs, p.tokens, p.next, p.index, m)
    ensures var q, i, t := BodyPut(defs, p), p.index, p.tokens[p.index];
            var m' := |defs[t.lex.text].body| + m - 1;
            && ExpandsOnce(defs, p, q) && Segment(defs, q.tokens, q.next, i, m')
            && At(q.tokens, i, m') == Replacement(defs, t.lex) + At(p.tokens, i + 1, m - 1)
            && q.tokens[..i] == p.tokens[..i] && q.tokens[i + m'..] == p.tokens[i + m..] && q.next >= p.next
  {
    hide Pasting.BuildUpTo, Segment, ExpandsOnce, Replacement;
    SegmentFits(defs, p.tokens, p.next, p.index, m);
    SegmentPlain(defs, p.tokens, p.next, p.index, m);
    BodyPutExpands(defs, p);
    var i, t, ts := p.index, p.tokens[p.index], p.tokens;
    var toks := Lexemes(defs[t.lex.text].body);
    var b := Pasting.ExpandTokens(toks, t.lex, p.next);
    ReplacementTokens(defs, t.lex, p.next);
    Pasting.BuildIsFresh(toks, |toks|, t.lex, p.next);
    SegmentSpliced(defs, ts, p.next, i, m, b.out, b.next);
  }

  lemma BodyPutExpands(defs: Defs, p: Place)
    requires p.index < |p.tokens| && Expands(defs, p.tokens[p.index].lex.text)
    requires defs[p.tokens[p.index].lex.text].sig.None?
    requires forall n :: n in defs ==> defs[n].token.id != p.tokens[p.index].id
    ensures ExpandsOnce(defs, p, BodyPut(defs, p))
  {
  }

  lemma SegmentSpliced(defs: Defs, ts: seq<Token>, next: nat, i: nat, m: nat, out: seq<Token>, next': nat)
    requires Segment(defs, ts, next, i, m) && m > 0 && NoHash(out) && next <= next'
    requires Expands(defs, ts[i].lex.text) && Lexemes(out) == Replacement(defs, ts[i].lex)
    requires forall k :: 0 <= k < |out| ==> next <= out[k].id
    ensures var ts', m' := ts[..i] + out + ts[i + 1..], |out| + m - 1;
            && Segment(defs, ts', next', i, m') && At(ts', i, m') == Lexemes(out) + At(ts, i + 1, m - 1)
            && ts'[i + m'..] == ts[i + m..]
  {
    hide PlainIn, Apart, Replacement, NoHash, Expands, Lexemes, Inert;
    var ts', m' := ts[..i] + out + ts[i + 1..], |out| + m - 1;
    ApartSpliced(defs, ts, next, i, out, next');
    SplicedParts(ts, i, m, out);
    var seg := ts[i..i + m];
    PlainSpliced(defs, seg, 0, out);
    HashSpliced(out, seg);
    assert seg[..0] + out + seg[1..] == out + seg[1..];
    assert seg[0] == ts[i];
    LexemesBoth(out, seg[1..]);
    assert i + m < |ts| ==> ts[i + m..][0] == ts[i + m] && ts'[i + m'] == ts'[i + m'..][0];
  }

  lemma HashSpliced(out: seq<Token>, seg: seq<Token>)
    requires NoHash(out) && NoHash(seg) && seg != []
    ensures NoHash(out + seg[1..])
  {
  }

  lemma LexemesBoth(a: seq<Token>, b: seq<Token>)
    ensures Lexemes(a + b) == Lexemes(a) + Lexemes(b)
  {
  }

  lemma ApartSpliced(defs: Defs, ts: seq<Token>, next: nat, i: nat, out: seq<Token>, next': nat)
    requires Apart(defs, ts, next) && i < |ts| && next <= next'
    requires forall k :: 0 <= k < |out| ==> next <= out[k].id
    ensures Apart(defs, ts[..i] + out + ts[i + 1..], next')
  {
    var ts' := ts[..i] + out + ts[i + 1..];
    forall n, k | n in defs && 0 <= k < |ts'| ensures defs[n].token.id != ts'[k].id {
      if i <= k < i + |out| {
        assert ts'[k] == out[k - i];
      } else {
        assert ts'[k] == ts[if k < i then k else k - |out| + 1];
      }
    }
  }

  lemma SplicedParts(ts: seq<Token>, i: nat, m: nat, out: seq<Token>)
    requires m > 0 && i + m <= |ts|
    ensures var ts', m' := ts[..i] + out + ts[i + 1..], |out| + m - 1;
            ts'[i..i + m'] == out + ts[i + 1..i + m] && ts'[i + m'..] == ts[i + m..]
    ensures ts[i..i + m][1..] == ts[i + 1..i + m]
  {
  }

  lemma {:induction false} ChainBefore(defs: Defs, p: Place, qs: seq<Place>)
    requires qs != [] && Chain(defs, qs) && ExpandsOnce(defs, p, qs[0])
    ensures Chain(defs, [p] + qs)
  {
    hide ExpandsOnce;
    var ps := [p] + qs;
    if |qs| == 1 {
      assert ps[..1] == [p];
    } else {
      ChainBefore(defs, p, qs[..|qs| - 1]);
      assert ps[..|ps| - 1] == [p] + qs[..|qs| - 1];
    }
  }

  /** Expanding at the cursor until nothing more is expanded there leaves a stretch that scans to the same. */
  lemma {:induction false} ExpandOut(defs: Defs, p: Place, m: nat, head: bool, n: nat)
    returns (ps: seq<Place>, m': nat, n': nat)
    requires Segment(defs, p.tokens, p.next, p.index, m) && Ends(defs, At(p.tokens, p.index, m), head, n)
    requires head || m == 0 || p.tokens[p.index].Is(Name)
    ensures Chain(defs, ps) && ps != [] && ps[0] == p && n' <= n
    ensures |ps| > 1 <==> m > 0 && Expands(defs, p.tokens[p.index].lex.text)
    ensures |ps| > 1 ==> n' < n
    ensures var q, i := ps[|ps| - 1], p.index;
            && q.index == i && Segment(defs, q.tokens, q.next, i, m') && Settled(q.tokens, i, defs) && q.next >= p.next
            && q.tokens[..i] == p.tokens[..i] && q.tokens[i + m'..] == p.tokens[i + m..]
            && Ends(defs, At(q.tokens, i, m'), false, n')
            && Scans(defs, At(q.tokens, i, m'), false, n') == Scans(defs, At(p.tokens, i, m), head, n)
    decreases n
  {
    hide Segment, Settled, ExpandsOnce, Ends, Scans, BodyPut, Chain, At, Replacement, Expands;
    var i := p.index;
    SegmentSettled(defs, p.tokens, p.next, i, m);
    SegmentFits(defs, p.tokens, p.next, i, m);
    if m > 0 {
      AtFirst(p.tokens, i, m);
      ScanStep(defs, p.tokens[i].lex, At(p.tokens, i + 1, m - 1), head, n);
    } else {
      NothingAt(p.tokens, i);
    }
    if m > 0 && Expands(defs, p.tokens[i].lex.text) {
      BodyPutHere(defs, p);
      var q := BodyPut(defs, p);
      ReplacedOnce(defs, p, m);
      var qs;
      qs, m', n' := ExpandOut(defs, q, |defs[p.tokens[i].lex.text].body| + m - 1, true, n - 1);
      ChainBefore(defs, p, qs);
      ps := [p] + qs;
    } else {
      ps, m', n' := [p], m, n;
      ChainBegins(defs, p);
      if head {
        HeadIgnored(defs, At(p.tokens, i, m), n);
      }
    }
  }

  lemma BodyPutHere(defs: Defs, p: Place)
    requires p.index < |p.tokens| && Expands(defs, p.tokens[p.index].lex.text)
    ensures p.tokens[p.index].lex.text in defs && BodyPut(defs, p).index == p.index
  {
  }

  lemma SegmentFits(defs: Defs, ts: seq<Token>, next: nat, i: nat, m: nat)
    requires Segment(defs, ts, next, i, m)
    ensures i + m <= |ts| && forall n, k :: n in defs && 0 <= k < |ts| ==> defs[n].token.id != ts[k].id
  {
  }

  lemma SegmentPlain(defs: Defs, ts: seq<Token>, next: nat, i: nat, m: nat)
    requires Segment(defs, ts, next, i, m) && m > 0 && ts[i].lex.text in defs
    ensures var b := defs[ts[i].lex.text];
            b.sig.None? && forall k :: 0 <= k < |b.body| ==> Pasting.Kept(b.body[k].lex.kind)
  {
    assert ts[i..i + m][0] == ts[i];
    PlainHere(defs, ts[i..i + m], 0);
  }

  // ----- the rounds over a stretch -----

  /** Outside of directives, in text that is not skipped. */
  predicate InActiveText(a: Snap) {
    !a.scan.doCpp && a.scan.doExpansion && a.levels.skip == 0
  }

  lemma LookStaysOut(s: Scan, k: Kind)
    requires !s.doCpp && s.doExpansion && k != Hash
    ensures !Look(s, k).doCpp && Look(s, k).doExpansion
  {
  }

  /** Left alone if it is seen again. */
  ghost predicate Still(defs: Defs, ts: seq<Token>) {
    forall k :: 0 <= k < |ts| ==>
      Quiet(defs, ts[k]) && !ts[k].Is(Hash) && (ts[k].lex.text in defs ==> defs[ts[k].lex.text].sig.None?)
  }

  /** A round inside a stretch: `m'` tokens of it are to come, and it has left `out`. */
  ghost predicate Onward(env: Env, a: Snap, m: nat, n: nat, how: How, b: Snap, m': nat, n': nat, out: seq<Token>)
    requires a.index + m <= |a.tokens| && Ends(a.defs, At(a.tokens, a.index, m), false, n)
  {
    && Round(env, a, how, b) && n' < n && InActiveText(b) && b.defs == a.defs
    && b.levels == a.levels && b.clock == a.clock && b.pending == a.pending && b.next >= a.next
    && Segment(b.defs, b.tokens, b.next, b.index, m') && Ends(b.defs, At(b.tokens, b.index, m'), false, n')
    && b.index == a.index + |out| && b.tokens[..b.index] == a.tokens[..a.index] + out
    && b.tokens[b.index + m'..] == a.tokens[a.index + m..]
    && Scans(a.defs, At(a.tokens, a.index, m), false, n) ==
       Lexemes(out) + Scans(b.defs, At(b.tokens, b.index, m'), false, n')
    && Still(a.defs, out)
  }

  /** At the beginning of a stretch, whose scan ends. */
  ghost predicate Before(a: Snap, m: nat, n: nat) {
    && InActiveText(a) && 0 < m <= |a.tokens| - a.index && Segment(a.defs, a.tokens, a.next, a.index, m)
    && Ends(a.defs, At(a.tokens, a.index, m), false, n)
  }

  /** The first token of a stretch is dropped, expanded or stepped over. */
  lemma FirstRound(env: Env, a: Snap, m: nat, n: nat) returns (how: How, b: Snap, m': nat, n': nat, out: seq<Token>)
    requires Before(a, m, n) && (a.index + m < |a.tokens| || m > 1 || !a.tokens[a.index].Is(Eol))
    ensures Onward(env, a, m, n, how, b, m', n', out)
  {
    hide Segment, Ends, Onward;
    var i, t, s := a.index, a.tokens[a.index], Look(a.scan, a.tokens[a.index].lex.kind);
    if t.Is(Eol) {
      FirstDropped(env, a, m, n);
      how, b, m', n', out := Dropped, Cut(a).(scan := s), m - 1, n - 1, [];
    } else if t.Is(Name) && Expands(a.defs, t.lex.text) {
      how, b, m', n' := FirstExpanded(env, a, m, n);
      out := [];
    } else {
      FirstPassed(env, a, m, n);
      how, b, m', n', out := Advanced, a.(index := i + 1, scan := s), m - 1, n - 1, [t];
    }
  }

  lemma FirstDropped(env: Env, a: Snap, m: nat, n: nat)
    requires Before(a, m, n) && a.tokens[a.index].Is(Eol) && (a.index + m < |a.tokens| || m > 1)
    ensures var b := Cut(a).(scan := Look(a.scan, a.tokens[a.index].lex.kind));
            n > 0 && Onward(env, a, m, n, Dropped, b, m - 1, n - 1, [])
  {
    hide Segment, Settled, Ends, Scans, Look, Round, At, Cut;
    var i, t := a.index, a.tokens[a.index];
    SegmentSettled(a.defs, a.tokens, a.next, i, m);
    AtFirst(a.tokens, i, m);
    ScanStep(a.defs, t.lex, At(a.tokens, i + 1, m - 1), false, n);
    LookStaysOut(a.scan, t.lex.kind);
    CutInside(a);
    DroppedRound(env, a, Cut(a).(scan := Look(a.scan, t.lex.kind)));
    SegmentWithout(a.defs, a.tokens, a.next, i, m);
  }

  lemma CutInside(a: Snap)
    requires a.index + 1 < |a.tokens|
    ensures Cut(a) == a.(tokens := a.tokens[..a.index] + a.tokens[a.index + 1..])
  {
  }

  lemma FirstExpanded(env: Env, a: Snap, m: nat, n: nat) returns (how: How, b: Snap, m': nat, n': nat)
    requires Before(a, m, n) && a.tokens[a.index].Is(Name) && Expands(a.defs, a.tokens[a.index].lex.text)
    ensures Onward(env, a, m, n, how, b, m', n', [])
  {
    hide Segment, Settled, Ends, Scans, Look, Round, Chain;
    var i, t, s := a.index, a.tokens[a.index], Look(a.scan, a.tokens[a.index].lex.kind);
    LookStaysOut(a.scan, t.lex.kind);
    SegmentSettled(a.defs, a.tokens, a.next, i, m);
    var ps;
    ps, m', n' := ExpandOut(a.defs, Place(a.tokens, i, multiset{}, a.next), m, false, n);
    var q := ps[|ps| - 1];
    how, b := Expanded(ps), a.(tokens := q.tokens, index := q.index, next := q.next, scan := s);
    ExpandedRound(env, a, ps, b);
  }

  lemma FirstPassed(env: Env, a: Snap, m: nat, n: nat)
    requires Before(a, m, n) && !a.tokens[a.index].Is(Eol)
    requires !(a.tokens[a.index].Is(Name) && Expands(a.defs, a.tokens[a.index].lex.text))
    ensures var b := a.(index := a.index + 1, scan := Look(a.scan, a.tokens[a.index].lex.kind));
            n > 0 && Onward(env, a, m, n, Advanced, b, m - 1, n - 1, [a.tokens[a.index]])
  {
    hide Segment, Settled, Ends, Scans, Look, Round;
    var i, t := a.index, a.tokens[a.index];
    SegmentSettled(a.defs, a.tokens, a.next, i, m);
    AtFirst(a.tokens, i, m);
    ScanStep(a.defs, t.lex, At(a.tokens, i + 1, m - 1), false, n);
    LookStaysOut(a.scan, t.lex.kind);
    AdvancedRound(env, a, a.(index := i + 1, scan := Look(a.scan, t.lex.kind)));
    SegmentAfter(a.defs, a.tokens, a.next, i, m);
    if t.lex.text in a.defs {
      SegmentPlain(a.defs, a.tokens, a.next, i, m);
    }
    assert a.tokens[..i + 1] == a.tokens[..i] + [t];
  }

  lemma SegmentAfter(defs: Defs, ts: seq<Token>, next: nat, i: nat, m: nat)
    requires Segment(defs, ts, next, i, m) && m > 0
    ensures Segment(defs, ts, next, i + 1, m - 1)
  {
    assert ts[i + 1..i + m] == ts[i..i + m][1..];
    PlainSome(defs, ts[i..i + m], ts[i + 1..i + m]);
  }

  lemma SegmentWithout(defs: Defs, ts: seq<Token>, next: nat, i: nat, m: nat)
    requires Segment(defs, ts, next, i, m) && m > 0
    ensures var cut := ts[..i] + ts[i + 1..];
            && Segment(defs, cut, next, i, m - 1) && At(cut, i, m - 1) == At(ts, i + 1, m - 1)
            && cut[i + m - 1..] == ts[i + m..] && cut[..i] == ts[..i]
  {
    var cut := ts[..i] + ts[i + 1..];
    assert cut[i..i + m - 1] == ts[i + 1..i + m] == ts[i..i + m][1..];
    PlainSome(defs, ts[i..i + m], ts[i + 1..i + m]);
    forall n, k | n in defs && 0 <= k < |cut| ensures defs[n].token.id != cut[k].id {
      assert cut[k] == ts[if k < i then k else k + 1];
    }
    assert i + m < |ts| ==> cut[i + m - 1] == ts[i + m];
  }

  /** The stretch of `a` is scanned, and all else is as it was. */
  ghost predicate Scanned(a: Snap, m: nat, n: nat, b: Snap, out: seq<Token>)
    requires a.index + m <= |a.tokens| && Ends(a.defs, At(a.tokens, a.index, m), false, n)
  {
    && InActiveText(b) && b.tokens == a.tokens[..a.index] + out + a.tokens[a.index + m..]
    && b.index == a.index + |out|
    && b.defs == a.defs && b.levels == a.levels && b.clock == a.clock && b.pending == a.pending
    && Lexemes(out) == Scans(a.defs, At(a.tokens, a.index, m), false, n)
  }

  /** A stretch of active text between two directives: some run goes on until all of it is scanned, and
      leaves what the scan of that stretch alone leaves. */
  lemma {:induction false} SegmentDone(env: Env, run: Run, m: nat, n: nat) returns (goal: Run, out: seq<Token>)
    requires IsRun(env, run) && InActiveText(Last(run))
    requires var a := Last(run);
             && Segment(a.defs, a.tokens, a.next, a.index, m) && a.index + m < |a.tokens|
             && Ends(a.defs, At(a.tokens, a.index, m), false, n)
    ensures IsRun(env, goal) && First(goal) == First(run) && Rounds(goal) >= Rounds(run)
    ensures Scanned(Last(run), m, n, Last(goal), out)
    decreases n
  {
    hide Segment, Ends, Scans, Round, Look, InActiveText, Onward, Scanned;
    var a := Last(run);
    if m == 0 {
      goal, out := run, [];
      NothingScanned(a, n);
    } else {
      SegmentFits(a.defs, a.tokens, a.next, a.index, m);
      var how, b, m', n', first := FirstRound(env, a, m, n);
      OnwardLeaves(env, a, m, n, how, b, m', n', first);
      var rest;
      goal, rest := SegmentDone(env, Then(run, how, b), m', n');
      out := first + rest;
      OnwardScanned(env, a, m, n, how, b, m', n', first, Last(goal), rest);
    }
  }

  lemma NothingScanned(a: Snap, n: nat)
    requires InActiveText(a) && a.index <= |a.tokens|
    ensures At(a.tokens, a.index, 0) == [] && Ends(a.defs, [], false, n) && Scanned(a, 0, n, a, [])
  {
    hide Ends, Scans;
    NothingAt(a.tokens, a.index);
    NoScan(a.defs, n);
    assert a.tokens == a.tokens[..a.index] + [] + a.tokens[a.index..];
  }

  lemma OnwardLeaves(env: Env, a: Snap, m: nat, n: nat, how: How, b: Snap, m': nat, n': nat, out: seq<Token>)
    requires a.index + m < |a.tokens| && Ends(a.defs, At(a.tokens, a.index, m), false, n)
    requires Onward(env, a, m, n, how, b, m', n', out)
    ensures Round(env, a, how, b) && n' < n && InActiveText(b) && Segment(b.defs, b.tokens, b.next, b.index, m')
    ensures b.index + m' < |b.tokens| && Ends(b.defs, At(b.tokens, b.index, m'), false, n')
  {
    hide Segment, Ends, Scans, Round, Still, InActiveText, At;
    SegmentFits(b.defs, b.tokens, b.next, b.index, m');
    assert |b.tokens[b.index + m'..]| == |a.tokens[a.index + m..]|;
  }

  lemma OnwardScanned(env: Env, a: Snap, m: nat, n: nat, how: How, b: Snap, m': nat, n': nat, first: seq<Token>,
                      c: Snap, rest: seq<Token>)
    requires a.index + m <= |a.tokens| && Ends(a.defs, At(a.tokens, a.index, m), false, n)
    requires Onward(env, a, m, n, how, b, m', n', first) && b.index + m' <= |b.tokens|
    requires Scanned(b, m', n', c, rest)
    ensures Scanned(a, m, n, c, first + rest)
  {
    hide Segment, Ends, Scans, Round, Still, InActiveText, At, Lexemes;
    OneByOne(a.tokens[..a.index], first, rest, a.tokens[a.index + m..]);
  }

  lemma NothingAt(ts: seq<Token>, i: nat)
    requires i <= |ts|
    ensures At(ts, i, 0) == []
  {
    assert ts[i..i] == [];
  }

  lemma OneByOne(before: seq<Token>, first: seq<Token>, rest: seq<Token>, behind: seq<Token>)
    ensures before + first + rest + behind == before + (first + rest) + behind
    ensures Lexemes(first + rest) == Lexemes(first) + Lexemes(rest)
  {
  }

  /** With ranked macros: the stretch comes out as its full expansion, the macros being those of the moment. */
  lemma StretchRewritten(env: Env, run: Run, m: nat, use: Defs, rank: string -> nat)
    returns (goal: Run, out: seq<Token>)
    requires IsRun(env, run) && InActiveText(Last(run)) && Ranked(use, rank)
    requires var a := Last(run); a.index + m < |a.tokens| && InPlay(a.defs, use, a.tokens[a.index..a.index + m])
    requires var a := Last(run); Segment(a.defs, a.tokens, a.next, a.index, m)
    ensures IsRun(env, goal) && First(goal) == First(run) && Rounds(goal) >= Rounds(run)
    ensures var a, b := Last(run), Last(goal);
            && InActiveText(b) && b.tokens == a.tokens[..a.index] + out + a.tokens[a.index + m..]
            && b.index == a.index + |out|
            && b.defs == a.defs && b.levels == a.levels && b.clock == a.clock && b.pending == a.pending
            && FullyExpanded(use, rank, At(a.tokens, a.index, m), Lexemes(out))
  {
    hide Segment, Ends, Scans, Ranked, InActiveText, InPlay, At, IsRun, FullyExpanded, Lexemes;
    var a := Last(run);
    var ls := At(a.tokens, a.index, m);
    var n := TextWeight(use, rank, ls);
    RankedEnds(use, rank, ls, false);
    ScansIsRewrite(use, rank, ls, false, n);
    RewriteFullyExpands(use, rank, ls);
    StretchWithin(a.defs, use, a.tokens, a.index, m);
    EndsWithin(a.defs, use, ls, false, n);
    ScansWithin(a.defs, use, ls, false, n);
    goal, out := SegmentDone(env, run, m, n);
  }

  lemma StretchWithin(defs: Defs, use: Defs, ts: seq<Token>, i: nat, m: nat)
    requires i + m <= |ts| && InPlay(defs, use, ts[i..i + m])
    ensures Part(defs, use) && forall l :: l in At(ts, i, m) && l.text in defs ==> l.text in use
  {
    forall l | l in At(ts, i, m) && l.text in defs ensures l.text in use {
      var k :| 0 <= k < m && At(ts, i, m)[k] == l;
      assert ts[i..i + m][k] in ts[i..i + m];
    }
  }

  lemma NoScan(defs: Defs, n: nat)
    ensures Ends(defs, [], false, n) && Scans(defs, [], false, n) == [] && Lexemes([]) == []
  {
  }

  // ----- text to the end of the stream -----

  lemma {:induction false} TextDone(env: Env, run: Run, n: nat) returns (goal: Run)
    requires IsRun(env, run) && InActiveText(Last(run))
    requires var a := Last(run);
             && a.index <= |a.tokens| && Segment(a.defs, a.tokens, a.next, a.index, |a.tokens| - a.index)
             && Still(a.defs, a.tokens[..a.index]) && Ends(a.defs, Lexemes(a.tokens[a.index..]), false, n)
    ensures IsRun(env, goal) && First(goal) == First(run) && Last(goal).index >= |Last(goal).tokens|
    ensures var a, b := Last(run), Last(goal);
            Lexemes(b.tokens) == Lexemes(a.tokens[..a.index]) + Scans(a.defs, Lexemes(a.tokens[a.index..]), false, n)
    decreases n
  {
    hide Segment, Ends, Scans, Round, Look, Still, InActiveText;
    var a := Last(run);
    var m := |a.tokens| - a.index;
    assert a.tokens[a.index..a.index + m] == a.tokens[a.index..];
    if m == 0 {
      goal := run;
      NoScan(a.defs, n);
      assert a.tokens[..a.index] == a.tokens && a.tokens[a.index..] == [];
    } else if m == 1 && a.tokens[a.index].Is(Eol) {
      goal := LastLineEnd(env, run, n);
    } else {
      var how, b, m', n', first := FirstRound(env, a, m, n);
      SegmentFits(b.defs, b.tokens, b.next, b.index, m');
      assert |b.tokens[b.index + m'..]| == 0;
      StillBoth(a.defs, a.tokens[..a.index], first);
      assert b.tokens[b.index..b.index + m'] == b.tokens[b.index..];
      goal := TextDone(env, Then(run, how, b), n');
      assert Lexemes(a.tokens[..a.index] + first) == Lexemes(a.tokens[..a.index]) + Lexemes(first);
    }
  }

  lemma StillBoth(defs: Defs, a: seq<Token>, b: seq<Token>)
    requires Still(defs, a) && Still(defs, b)
    ensures Still(defs, a + b)
  {
  }

  /** The last line end is dropped; the token before it is seen again and stepped over. */
  lemma LastLineEnd(env: Env, run: Run, n: nat) returns (goal: Run)
    requires IsRun(env, run) && InActiveText(Last(run))
    requires var a := Last(run);
             && |a.tokens| == a.index + 1 && a.tokens[a.index].Is(Eol) && Segment(a.defs, a.tokens, a.next, a.index, 1)
             && Still(a.defs, a.tokens[..a.index]) && Ends(a.defs, Lexemes(a.tokens[a.index..]), false, n)
    ensures IsRun(env, goal) && First(goal) == First(run) && Last(goal).index >= |Last(goal).tokens|
    ensures var a, b := Last(run), Last(goal);
            Lexemes(b.tokens) == Lexemes(a.tokens[..a.index]) + Scans(a.defs, Lexemes(a.tokens[a.index..]), false, n)
  {
    hide Segment, Ends, Scans, Look, Round, Still;
    var a := Last(run);
    var i, t, s := a.index, a.tokens[a.index], Look(a.scan, a.tokens[a.index].lex.kind);
    assert a.tokens[i..] == [t] && Lexemes([t]) == [t.lex] + [];
    ScanStep(a.defs, t.lex, [], false, n);
    NoScan(a.defs, n - 1);
    LookStaysOut(a.scan, t.lex.kind);
    var b := Cut(a).(scan := s);
    DroppedRound(env, a, b);
    goal := Then(run, Dropped, b);
    assert b.tokens == a.tokens[..i];
    if i > 0 {
      goal := SeenAgain(env, goal);
    }
  }

  lemma SeenAgain(env: Env, run: Run) returns (goal: Run)
    requires IsRun(env, run) && InActiveText(Last(run))
    requires var b := Last(run); |b.tokens| == b.index + 1 && Still(b.defs, b.tokens)
    ensures IsRun(env, goal) && First(goal) == First(run)
    ensures Last(goal).tokens == Last(run).tokens && Last(goal).index == |Last(run).tokens|
  {
    hide Look, Round, Settled;
    var b := Last(run);
    var u := b.tokens[b.index];
    LookStaysOut(b.scan, u.lex.kind);
    StillSettled(b.defs, b.tokens, b.index);
    var c := b.(index := b.index + 1, scan := Look(b.scan, u.lex.kind));
    AdvancedRound(env, b, c);
    goal := Then(run, Advanced, c);
  }

  lemma StillSettled(defs: Defs, ts: seq<Token>, k: nat)
    requires k < |ts| && Still(defs, ts)
    ensures ts[k].Is(Name) ==> Settled(ts, k, defs)
  {
  }

  // ----- exactly when text is finished -----

  /** Text on its own, scanned from its beginning. */
  ghost predicate TextStart(a: Snap) {
    && a.index == 0 && a.scan == BEGIN && a.pending == [] && a.levels.skip == 0
    && PlainIn(a.defs, a.tokens) && NoHash(a.tokens) && Apart(a.defs, a.tokens, a.next)
  }

  /** Some run from `start` gets to the end of the stream and leaves `ls`. */
  ghost predicate CanLeave(env: Env, start: Snap, ls: seq<Lexeme>) {
    exists goal :: Leaves(env, start, goal, ls)
  }

  ghost predicate Leaves(env: Env, start: Snap, goal: Run, ls: seq<Lexeme>) {
    && IsRun(env, goal) && First(goal) == start
    && Last(goal).index >= |Last(goal).tokens| && Lexemes(Last(goal).tokens) == ls
  }

  /** Some number of steps is enough. */
  ghost predicate CanFinish(env: Env, start: Snap) {
    exists all, goal :: Finishes(env, start, all, goal)
  }

  /** Stage 2 finishes text, given enough steps, if and only if its scan ends, and leaves what that leaves. */
  lemma TextFinishesExactly(env: Env, start: Snap)
    requires TextStart(start)
    ensures CanFinish(env, start) <==> !Diverges(start.defs, Lexemes(start.tokens), false)
    ensures forall n :: Ends(start.defs, Lexemes(start.tokens), false, n) ==>
              CanLeave(env, start, Scans(start.defs, Lexemes(start.tokens), false, n))
  {
    hide Ends, Scans, Leaves, Finishes, EndlessAt;
    forall n | Ends(start.defs, Lexemes(start.tokens), false, n)
      ensures CanLeave(env, start, Scans(start.defs, Lexemes(start.tokens), false, n)) && CanFinish(env, start)
    {
      var goal := FromStart(env, start, n);
    }
    if Diverges(start.defs, Lexemes(start.tokens), false) {
      StartsEndless(start);
      forall all, goal ensures !Finishes(env, start, all, goal) {
        EndlessUnfinished(env, start, all, goal);
      }
    }
  }

  lemma EndlessUnfinished(env: Env, start: Snap, all: nat, goal: Run)
    requires EndlessAt(start)
    ensures !Finishes(env, start, all, goal)
  {
    hide EndlessAt, IsRun, Ended, Crashes;
    if IsRun(env, goal) && First(goal) == start {
      EndlessRun(env, goal);
      EndlessNeverEnds(env, Last(goal), AtRound);
    }
  }

  lemma StartsEndless(start: Snap)
    requires TextStart(start) && Diverges(start.defs, Lexemes(start.tokens), false)
    ensures EndlessAt(start)
  {
    assert start.tokens[0..] == start.tokens;
  }

  lemma FromStart(env: Env, start: Snap, n: nat) returns (goal: Run)
    requires TextStart(start) && Ends(start.defs, Lexemes(start.tokens), false, n)
    ensures Leaves(env, start, goal, Scans(start.defs, Lexemes(start.tokens), false, n))
    ensures Finishes(env, start, Price(goal), goal)
  {
    hide Ends, Scans;
    var ts := start.tokens;
    assert ts[0..] == ts && ts[0..0 + |ts|] == ts && ts[..0] == [];
    goal := TextDone(env, Begin(start), n);
    assert Lexemes([]) == [];
    assert [] + Scans(start.defs, Lexemes(ts), false, n) == Scans(start.defs, Lexemes(ts), false, n);
  }

  /** With plain macros stage 2 finishes all text, given enough steps, if and only if they can be ranked. */
  lemma FinishesIffRanked(env: Env, defs: Defs)
    requires Plain(defs) && BodiesNamesOnly(defs)
    ensures (exists r :: Ranked(defs, r))
            <==> forall start :: TextStart(start) && start.defs == defs ==> CanFinish(env, start)
  {
    hide Diverges, CanFinish, Ranked, BodiesNamesOnly;
    var _ := EndsIffRanked(defs);
    if exists r :: Ranked(defs, r) {
      forall start | TextStart(start) && start.defs == defs ensures CanFinish(env, start) {
        TextFinishesExactly(env, start);
      }
    } else {
      var name :| Diverges(defs, [NameOf(name)], false);
      var next := Beyond(defs);
      var t := Token(next, NameOf(name));
      var start := Alone(defs, t, next + 1, 0);
      assert Lexemes([t]) == [NameOf(name)];
      assert TextStart(start);
      TextFinishesExactly(env, start);
      assert !CanFinish(env, start);
    }
  }

  /** An address beyond those of all macros. */
  lemma {:induction false} Beyond(defs: Defs) returns (next: nat)
    ensures forall n :: n in defs ==> defs[n].token.id < next
    decreases |defs|
  {
    next := 0;
    if n :| n in defs {
      next := Beyond(defs - {n});
      forall m | m in defs ensures defs[m].token.id < next + defs[n].token.id + 1 {
        assert m != n ==> m in defs - {n};
      }
      next := next + defs[n].token.id + 1;
    }
  }

  // ----- skipped text -----

  /** A stretch of skipped text without HASH, with something behind it, vanishes. */
  lemma {:induction false} SkippedStretch(env: Env, run: Run, m: nat) returns (goal: Run)
    requires IsRun(env, run)
    requires var a := Last(run);
             !a.scan.doCpp && a.levels.skip != 0 && a.index + m < |a.tokens| && NoHash(a.tokens[a.index..a.index + m])
    ensures IsRun(env, goal) && First(goal) == First(run) && Rounds(goal) == Rounds(run) + m
    ensures var a, b := Last(run), Last(goal);
            && b == a.(tokens := a.tokens[..a.index] + a.tokens[a.index + m..], scan := b.scan) && !b.scan.doCpp
    decreases m
  {
    hide Round, Look, Cut, NoHash;
    var a := Last(run);
    if m == 0 {
      goal := run;
      assert a.tokens == a.tokens[..a.index] + a.tokens[a.index..];
    } else {
      WithoutFirst(a.tokens, a.index, m);
      var b := Cut(a).(scan := Look(a.scan, a.tokens[a.index].lex.kind));
      SkippedRound(env, a, b);
      goal := SkippedStretch(env, Then(run, Dropped, b), m - 1);
    }
  }

  lemma WithoutFirst(ts: seq<Token>, i: nat, m: nat)
    requires 0 < m && i + m <= |ts| && NoHash(ts[i..i + m])
    ensures !ts[i].Is(Hash)
    ensures var cut := ts[..i] + ts[i + 1..];
            NoHash(cut[i..i + m - 1]) && cut[..i] == ts[..i] && cut[i + m - 1..] == ts[i + m..]
  {
    assert ts[i] == ts[i..i + m][0];
    assert (ts[..i] + ts[i + 1..])[i..i + m - 1] == ts[i..i + m][1..];
  }

  lemma SkippedRound(env: Env, a: Snap, b: Snap)
    requires a.index + 1 < |a.tokens| && !a.scan.doCpp && a.levels.skip != 0 && !a.tokens[a.index].Is(Hash)
    requires b == Cut(a).(scan := Look(a.scan, a.tokens[a.index].lex.kind))
    ensures Round(env, a, Dropped, b) && !b.scan.doCpp
    ensures b == a.(tokens := a.tokens[..a.index] + a.tokens[a.index + 1..], scan := b.scan)
  {
  }
}
