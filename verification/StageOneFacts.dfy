/** What the stage 1 result keeps, drops and adds. */
module StageOneFacts {
  import opened Tokens
  import opened StageOne

  // ----- no comment, attribute or white space is left -----

  lemma ResultHasNoBlanks(input: seq<Token>, next: nat)
    ensures forall j :: 0 <= j < |Result(input, next)| ==> !Blank(Result(input, next)[j].lex.kind)
  {
    PassGood(input, |input|, next);
    StripsPairs(Whole(input, next).out);
  }

  lemma {:induction false} StripsPairs(ts: seq<Token>)
    ensures StripEnd(ts) <= ts
    ensures !EndsSpliceable(StripEnd(ts))
  {
    if EndsSpliceable(ts) {
      StripsPairs(ts[..|ts| - 2]);
    }
  }

  // ----- the scanned tokens that are left, in order and number -----

  /** The tokens of `ts` that were allocated before stage 1, that is, all but the markers. */
  function Scanned(ts: seq<Token>, next: nat): seq<Token> {
    if ts == [] then []
    else Scanned(ts[..|ts| - 1], next) + if ts[|ts| - 1].id < next then [ts[|ts| - 1]] else []
  }

  function Count(ts: seq<Token>, k: Kind): nat {
    if ts == [] then 0 else Count(ts[..|ts| - 1], k) + if ts[|ts| - 1].Is(k) then 1 else 0
  }

  /** `a` arises from `b` by leaving tokens out. */
  predicate Subsequence(a: seq<Token>, b: seq<Token>) {
    a == [] || (b != [] && (if a[|a| - 1] == b[|b| - 1] then Subsequence(a[..|a| - 1], b[..|b| - 1])
                            else Subsequence(a, b[..|b| - 1])))
  }

  lemma {:induction false} SubsequenceLonger(a: seq<Token>, b: seq<Token>, t: Token)
    requires Subsequence(a, b)
    ensures Subsequence(a, b + [t])
    decreases |b|, 1
  {
    assert (b + [t])[..|b|] == b;
    if a != [] && a[|a| - 1] == t {
      SubsequenceShorter(a, b);
    }
  }

  lemma {:induction false} SubsequenceShorter(a: seq<Token>, b: seq<Token>)
    requires a != [] && Subsequence(a, b)
    ensures Subsequence(a[..|a| - 1], b)
    decreases |b|, 0
  {
    var a', b' := a[..|a| - 1], b[..|b| - 1];
    if a[|a| - 1] != b[|b| - 1] {
      SubsequenceShorter(a, b');
    }
    SubsequenceLonger(a', b', b[|b| - 1]);
    assert b' + [b[|b| - 1]] == b;
  }

  lemma ScannedAppend(ts: seq<Token>, t: Token, next: nat)
    ensures Scanned(ts + [t], next) == Scanned(ts, next) + if t.id < next then [t] else []
  {
    assert (ts + [t])[..|ts|] == ts;
  }

  lemma CountAppend(ts: seq<Token>, t: Token, k: Kind)
    ensures Count(ts + [t], k) == Count(ts, k) + if t.Is(k) then 1 else 0
  {
    assert (ts + [t])[..|ts|] == ts;
  }

  /** How many tokens of type `k` the removed pairs contain. */
  function PairShare(k: Kind, pairs: nat): nat {
    if k == BSlash || k == Eol then pairs else 0
  }

  /** `kept` is `from` without its blanks and without `pairs` backslashes and as many line ends. */
  ghost predicate Accounts(kept: seq<Token>, from: seq<Token>, pairs: nat) {
    && Subsequence(kept, from)
    && forall k :: !Blank(k) ==> Count(from, k) == Count(kept, k) + PairShare(k, pairs)
  }

  lemma AccountsDrop(kept: seq<Token>, from: seq<Token>, pairs: nat, t: Token)
    requires Accounts(kept, from, pairs) && Blank(t.lex.kind)
    ensures Accounts(kept, from + [t], pairs)
  {
    SubsequenceLonger(kept, from, t);
    forall k | !Blank(k) ensures Count(from + [t], k) == Count(kept, k) + PairShare(k, pairs) {
      CountAppend(from, t, k);
    }
  }

  lemma AccountsKeep(kept: seq<Token>, from: seq<Token>, pairs: nat, t: Token)
    requires Accounts(kept, from, pairs)
    ensures Accounts(kept + [t], from + [t], pairs)
  {
    assert (kept + [t])[..|kept|] == kept && (from + [t])[..|from|] == from;
    forall k | !Blank(k) ensures Count(from + [t], k) == Count(kept + [t], k) + PairShare(k, pairs) {
      CountAppend(from, t, k);
      CountAppend(kept, t, k);
    }
  }

  lemma AccountsSplice(kept: seq<Token>, from: seq<Token>, pairs: nat, t: Token)
    requires Accounts(kept, from, pairs) && kept != [] && kept[|kept| - 1].Is(BSlash) && t.Is(Eol)
    ensures Accounts(kept[..|kept| - 1], from + [t], pairs + 1)
  {
    SubsequenceShorter(kept, from);
    SubsequenceLonger(kept[..|kept| - 1], from, t);
    forall k | !Blank(k) ensures Count(from + [t], k) == Count(kept[..|kept| - 1], k) + PairShare(k, pairs + 1) {
      CountAppend(from, t, k);
    }
  }

  /** The scanned tokens kept after one more token. */
  function KeptAfter(kept: seq<Token>, s: Pass, t: Token): seq<Token>
    requires |s.out| > 0 ==> |kept| > 0 || !Spliced(s, t.lex.kind)
  {
    if Blank(t.lex.kind) then kept
    else if Spliced(s, t.lex.kind) then kept[..|kept| - 1]
    else kept + [t]
  }

  lemma FeedScanned(s: Pass, t: Token, next: nat)
    requires Good(s) && t.id < next <= s.next
    requires |s.out| > 0 && s.out[|s.out| - 1].Is(BSlash) ==> s.out[|s.out| - 1].id < next
    ensures Spliced(s, t.lex.kind) ==>
              |Scanned(s.out, next)| > 0 && Scanned(s.out, next)[|Scanned(s.out, next)| - 1].Is(BSlash)
    ensures Scanned(Feed(s, t).out, next) == KeptAfter(Scanned(s.out, next), s, t)
  {
    var k := t.lex.kind;
    if Blank(k) || Spliced(s, k) {
    } else if NeedsMarker(s.f, k) {
      ScannedAppend(s.out, Marker(s.next, t), next);
      ScannedAppend(s.out + [Marker(s.next, t)], t, next);
    } else {
      ScannedAppend(s.out, t, next);
    }
  }

  /** One more token keeps the account; a splice adds a pair. */
  lemma FeedAccounts(s: Pass, t: Token, kept: seq<Token>, from: seq<Token>, pairs: nat)
    requires Accounts(kept, from, pairs)
    requires Spliced(s, t.lex.kind) ==> |kept| > 0 && kept[|kept| - 1].Is(BSlash)
    ensures Accounts(KeptAfter(kept, s, t), from + [t], if Spliced(s, t.lex.kind) then pairs + 1 else pairs)
  {
    if Blank(t.lex.kind) {
      AccountsDrop(kept, from, pairs, t);
    } else if Spliced(s, t.lex.kind) {
      AccountsSplice(kept, from, pairs, t);
    } else {
      AccountsKeep(kept, from, pairs, t);
    }
  }

  lemma StepScanned(input: seq<Token>, p: nat, next: nat)
    requires p < |input| && forall i :: 0 <= i < |input| ==> input[i].id < next
    ensures var s, t := PassTo(input, p, next), input[p];
            var kept := Scanned(s.out, next);
            && (Spliced(s, t.lex.kind) ==> |kept| > 0 && kept[|kept| - 1].Is(BSlash))
            && Scanned(PassTo(input, p + 1, next).out, next) == KeptAfter(kept, s, t)
  {
    PassGood(input, p, next);
    BackslashIsScanned(input, p, next);
    FeedScanned(PassTo(input, p, next), input[p], next);
  }

  lemma {:induction false} PassAccounts(input: seq<Token>, p: nat, next: nat) returns (pairs: nat)
    requires p <= |input| && forall i :: 0 <= i < |input| ==> input[i].id < next
    ensures Accounts(Scanned(PassTo(input, p, next).out, next), input[..p], pairs)
  {
    if p == 0 {
      pairs := 0;
      var none: seq<Token> := [];
      assert PassTo(input, p, next).out == none && input[..p] == none;
    } else {
      hide PassTo, Scanned, Accounts;
      pairs := PassAccounts(input, p - 1, next);
      pairs := StepAccounts(input, p - 1, next, Scanned(PassTo(input, p - 1, next).out, next), input[..p - 1], pairs);
    }
  }

  lemma StepAccounts(input: seq<Token>, p: nat, next: nat, kept: seq<Token>, from: seq<Token>, before: nat)
    returns (pairs: nat)
    requires p < |input| && forall i :: 0 <= i < |input| ==> input[i].id < next
    requires kept == Scanned(PassTo(input, p, next).out, next) && from == input[..p] && Accounts(kept, from, before)
    ensures Accounts(Scanned(PassTo(input, p + 1, next).out, next), input[..p + 1], pairs)
  {
    hide Accounts, Scanned, KeptAfter, PassTo, Feed;
    StepScanned(input, p, next);
    var s, t := PassTo(input, p, next), input[p];
    FeedAccounts(s, t, kept, from, before);
    pairs := if Spliced(s, t.lex.kind) then before + 1 else before;
    assert input[..p + 1] == from + [t];
  }

  /** Markers are never backslashes or line ends. */
  lemma {:induction false} BackslashIsScanned(input: seq<Token>, p: nat, next: nat)
    requires p <= |input| && forall i :: 0 <= i < |input| ==> input[i].id < next
    ensures forall j :: 0 <= j < |PassTo(input, p, next).out| ==>
              PassTo(input, p, next).out[j].id < next || PassTo(input, p, next).out[j].Is(NoWhitespace)
    ensures next <= PassTo(input, p, next).next
  {
    if p > 0 {
      BackslashIsScanned(input, p - 1, next);
    }
  }

  lemma {:induction false} StripAccounts(ts: seq<Token>, from: seq<Token>, next: nat, pairs: nat) returns (all: nat)
    requires Accounts(Scanned(ts, next), from, pairs)
    requires forall j :: 0 <= j < |ts| ==> ts[j].id < next || ts[j].Is(NoWhitespace)
    ensures Accounts(Scanned(StripEnd(ts), next), from, all)
  {
    all := pairs;
    if EndsSpliceable(ts) {
      var n, rest := |ts|, ts[..|ts| - 2];
      assert ts == rest + [ts[n - 2]] + [ts[n - 1]];
      ScannedAppend(rest, ts[n - 2], next);
      ScannedAppend(rest + [ts[n - 2]], ts[n - 1], next);
      var kept := Scanned(ts, next);
      assert kept[..|kept| - 1] == Scanned(rest + [ts[n - 2]], next);
      assert Scanned(rest + [ts[n - 2]], next)[..|kept| - 2] == Scanned(rest, next);
      SubsequenceShorter(kept, from);
      SubsequenceShorter(kept[..|kept| - 1], from);
      forall k | !Blank(k) ensures Count(from, k) == Count(Scanned(rest, next), k) + PairShare(k, pairs + 1) {
        CountAppend(Scanned(rest, next), ts[n - 2], k);
        CountAppend(Scanned(rest + [ts[n - 2]], next), ts[n - 1], k);
      }
      all := StripAccounts(rest, from, next, pairs + 1);
    }
  }

  /** Apart from markers, stage 1 only leaves out blanks and pairs of backslash and line end;
      every other token stays, in order. */
  lemma ResultAccounts(input: seq<Token>, next: nat) returns (pairs: nat)
    requires forall i :: 0 <= i < |input| ==> input[i].id < next
    ensures Accounts(Scanned(Result(input, next), next), input, pairs)
  {
    pairs := PassAccounts(input, |input|, next);
    assert input[..|input|] == input;
    if LateSplice(input, next) {
      BackslashIsScanned(input, |input|, next);
      pairs := StripAccounts(Whole(input, next).out, input, next, pairs);
    }
  }

  // ----- markers -----

  /** White space stands before position `q`, comments and attributes aside. */
  predicate SpaceBefore(input: seq<Token>, q: nat)
    requires q <= |input|
  {
    q > 0 && (input[q - 1].Is(Whitespace)
              || ((input[q - 1].Is(Comment) || input[q - 1].Is(Attribute)) && SpaceBefore(input, q - 1)))
  }

  /** `t` is a scanned left parenthesis with no white space before it. */
  ghost predicate TightParen(input: seq<Token>, p: nat, t: Token)
    requires p <= |input|
  {
    exists q :: 0 <= q < p && input[q] == t && t.Is(LParen) && !SpaceBefore(input, q)
  }

  ghost predicate MarkersTight(input: seq<Token>, p: nat, out: seq<Token>, next: nat)
    requires p <= |input|
  {
    forall j :: 0 <= j < |out| && out[j].id >= next ==>
      j + 1 < |out| && out[j + 1].Is(LParen) && TightParen(input, p, out[j + 1])
  }

  lemma {:induction false} PassMarkers(input: seq<Token>, p: nat, next: nat)
    requires p <= |input| && forall i :: 0 <= i < |input| ==> input[i].id < next
    ensures var s := PassTo(input, p, next);
            && MarkersTight(input, p, s.out, next)
            && s.f.ws == SpaceBefore(input, p) && (s.f.esc ==> !s.f.ws)
  {
    hide Feed, MarkersTight, Good;
    if p > 0 {
      PassMarkers(input, p - 1, next);
      PassGood(input, p - 1, next);
      FeedMarkers(input, p - 1, next, PassTo(input, p - 1, next));
      FeedSpace(input, p - 1, PassTo(input, p - 1, next));
    } else {
      NoMarkers(input, next);
    }
  }

  lemma NoMarkers(input: seq<Token>, next: nat)
    ensures MarkersTight(input, 0, [], next)
  {
  }

  lemma FeedSpace(input: seq<Token>, p: nat, s: Pass)
    requires p < |input| && s.f.ws == SpaceBefore(input, p) && (s.f.esc ==> !s.f.ws)
    ensures var s' := Feed(s, input[p]); s'.f.ws == SpaceBefore(input, p + 1) && (s'.f.esc ==> !s'.f.ws)
  {
    hide Feed, Scanned;
    FeedBlank(s, input[p]);
    SpaceStep(input, p);
  }

  lemma SpaceStep(input: seq<Token>, p: nat)
    requires p < |input|
    ensures var k := input[p].lex.kind;
            SpaceBefore(input, p + 1) == (k == Whitespace || (k in {Comment, Attribute} && SpaceBefore(input, p)))
  {
  }

  lemma FeedBlank(s: Pass, t: Token)
    requires s.f.esc ==> !s.f.ws
    ensures var k, f := t.lex.kind, Feed(s, t).f;
            f.ws == (k == Whitespace || (k in {Comment, Attribute} && s.f.ws)) && (f.esc ==> !f.ws)
  {
    hide Marker, Note, Keep, NeedsMarker, InsertMarker;
    KeepsNoSpace(s, t);
    KeepsNoSpace(InsertMarker(s, t), t);
  }

  lemma KeepsNoSpace(s: Pass, t: Token)
    ensures !Keep(s, t).f.ws
  {
  }

  lemma FeedMarkers(input: seq<Token>, p: nat, next: nat, s: Pass)
    requires p < |input| && input[p].id < next && Good(s)
    requires MarkersTight(input, p, s.out, next) && s.f.ws == SpaceBefore(input, p)
    ensures MarkersTight(input, p + 1, Feed(s, input[p]).out, next)
  {
    var t := input[p];
    var s' := Feed(s, t);
    forall j | 0 <= j < |s'.out| && s'.out[j].id >= next
      ensures j + 1 < |s'.out| && s'.out[j + 1].Is(LParen) && TightParen(input, p + 1, s'.out[j + 1])
    {
      if j < |s.out| {
        assert TightParen(input, p, s.out[j + 1]);
        assert s'.out[j + 1] == s.out[j + 1];
      } else {
        assert input[p] == t;
      }
    }
  }

  /** Every marker is directly followed by a left parenthesis that had no white space before it. */
  lemma ResultMarkers(input: seq<Token>, next: nat)
    requires forall i :: 0 <= i < |input| ==> input[i].id < next
    ensures MarkersTight(input, |input|, Result(input, next), next)
  {
    PassMarkers(input, |input|, next);
    if LateSplice(input, next) {
      StripMarkers(input, Whole(input, next).out, next);
    }
  }

  lemma {:induction false} StripMarkers(input: seq<Token>, out: seq<Token>, next: nat)
    requires MarkersTight(input, |input|, out, next)
    ensures MarkersTight(input, |input|, StripEnd(out), next)
  {
    if EndsSpliceable(out) {
      var out' := out[..|out| - 2];
      forall j | 0 <= j < |out'| && out'[j].id >= next
        ensures j + 1 < |out'| && out'[j + 1].Is(LParen) && TightParen(input, |input|, out'[j + 1])
      {
        assert out[j + 1].Is(LParen);
      }
      StripMarkers(input, out', next);
    }
  }

  // ----- the two ways of writing a #define, and line splicing -----

  function FeedAll(s: Pass, ts: seq<Token>): Pass {
    if ts == [] then s else Feed(FeedAll(s, ts[..|ts| - 1]), ts[|ts| - 1])
  }

  predicate Blanks(ts: seq<Token>) {
    forall i :: 0 <= i < |ts| ==> Blank(ts[i].lex.kind)
  }

  predicate HasSpace(ts: seq<Token>) {
    exists i :: 0 <= i < |ts| && ts[i].Is(Whitespace)
  }

  function AfterBlanks(s: Pass, ts: seq<Token>): Pass {
    s.(f := if HasSpace(ts) then s.f.(name := false, ws := true, esc := false) else s.f)
  }

  lemma {:induction false} FeedBlanks(s: Pass, ts: seq<Token>)
    requires Blanks(ts)
    ensures FeedAll(s, ts) == AfterBlanks(s, ts)
  {
    if ts != [] {
      var init, t := ts[..|ts| - 1], ts[|ts| - 1];
      FeedBlanks(s, init);
      assert HasSpace(ts) <==> HasSpace(init) || t.Is(Whitespace);
    }
  }

  lemma {:induction false} FeedAllConcat(s: Pass, a: seq<Token>, b: seq<Token>)
    ensures FeedAll(s, a + b) == FeedAll(FeedAll(s, a), b)
  {
    if b == [] {
      assert a + b == a;
    } else {
      FeedAllConcat(s, a, b[..|b| - 1]);
      assert (a + b)[..|a + b| - 1] == a + b[..|b| - 1];
    }
  }

  lemma FeedGap(s: Pass, before: seq<Token>, gap: seq<Token>, t: Token)
    requires Blanks(gap)
    ensures FeedAll(s, before + gap + [t]) == Feed(AfterBlanks(FeedAll(s, before), gap), t)
  {
    FeedAllConcat(s, before, gap);
    FeedBlanks(FeedAll(s, before), gap);
    FeedAllConcat(s, before + gap, [t]);
    FeedOne(FeedAll(s, before + gap), t);
  }

  /** `# define NAME (`: a marker is inserted exactly if NAME and the parenthesis are not
      separated by white space; comments do not separate. */
  lemma DefineSeparated(s: Pass, h: Token, gap1: seq<Token>, d: Token, gap2: seq<Token>, n: Token, gap3: seq<Token>,
                        lp: Token)
    requires s.f.eol && !s.f.esc
    requires h.Is(Hash) && d.Is(Define) && n.Is(Name) && lp.Is(LParen)
    requires Blanks(gap1) && Blanks(gap2) && Blanks(gap3)
    ensures FeedAll(s, [h] + gap1 + [d] + gap2 + [n] + gap3 + [lp]).out
         == s.out + [h, d, n] + (if HasSpace(gap3) then [] else [Marker(s.next, lp)]) + [lp]
  {
    var upTo2 := [h] + gap1 + [d];
    DefineRead(s, h, gap1, d);
    FeedGap(s, upTo2, gap2, n);
    FeedName(FeedAll(s, upTo2), gap2, n);
    var upTo3 := upTo2 + gap2 + [n];
    var s3 := FeedAll(s, upTo3);
    assert s3.out == s.out + [h, d, n];
    NameRead(s, upTo3, gap3, lp);
  }

  lemma DefineRead(s: Pass, h: Token, gap: seq<Token>, d: Token)
    requires s.f.eol && !s.f.esc && h.Is(Hash) && d.Is(Define) && Blanks(gap)
    ensures var s2 := FeedAll(s, [h] + gap + [d]);
            s2.f.define && !s2.f.esc && s2.out == s.out + [h] + [d] && s2.next == s.next
  {
    FeedOne(s, h);
    FeedGap(s, [h], gap, d);
    FeedDefine(FeedAll(s, [h]), gap, d);
  }

  lemma NameRead(s: Pass, before: seq<Token>, gap: seq<Token>, lp: Token)
    requires lp.Is(LParen) && Blanks(gap)
    requires var s3 := FeedAll(s, before); s3.f.name && !s3.f.esc && !s3.f.ws
    ensures FeedAll(s, before + gap + [lp]).out
         == FeedAll(s, before).out + (if HasSpace(gap) then [] else [Marker(FeedAll(s, before).next, lp)]) + [lp]
  {
    FeedGap(s, before, gap, lp);
    FeedParen(FeedAll(s, before), gap, lp);
  }

  lemma FeedDefine(s: Pass, gap: seq<Token>, d: Token)
    requires s.f.hash && !s.f.esc && d.Is(Define)
    ensures var s' := Feed(AfterBlanks(s, gap), d);
            s'.f.define && !s'.f.esc && s'.out == s.out + [d] && s'.next == s.next
  {
  }

  lemma FeedName(s: Pass, gap: seq<Token>, n: Token)
    requires s.f.define && !s.f.esc && n.Is(Name)
    ensures var s' := Feed(AfterBlanks(s, gap), n);
            s'.f.name && !s'.f.esc && !s'.f.ws && s'.out == s.out + [n] && s'.next == s.next
  {
  }

  lemma FeedParen(s: Pass, gap: seq<Token>, lp: Token)
    requires s.f.name && !s.f.esc && !s.f.ws && lp.Is(LParen)
    ensures Feed(AfterBlanks(s, gap), lp).out
         == s.out + (if HasSpace(gap) then [] else [Marker(s.next, lp)]) + [lp]
  {
  }

  lemma FeedOne(s: Pass, t: Token)
    ensures FeedAll(s, [t]) == Feed(s, t)
  {
    assert [t][..0] == [];
    assert FeedAll(s, []) == s;
  }

  /** A backslash joins two lines unless white space or another backslash intervenes. */
  lemma LinesJoined(s: Pass, b: Token, gap: seq<Token>, e: Token)
    requires b.Is(BSlash) && e.Is(Eol) && Blanks(gap)
    ensures FeedAll(s, [b] + gap + [e]).out == if s.f.esc || HasSpace(gap) then s.out + [b, e] else s.out
  {
    FeedOne(s, b);
    var s1 := FeedAll(s, [b]);
    FeedAllConcat(s, [b], gap);
    FeedBlanks(s1, gap);
    var s2 := FeedAll(s1, gap);
    FeedAllConcat(s, [b] + gap, [e]);
    FeedOne(s2, e);
    assert s1.out == s.out + [b];
  }
}
