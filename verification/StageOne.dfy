/** Stage 1 of the preprocessor as a function of the scanned tokens (psi_cpp_stage1). */
module StageOne {
  import opened Tokens

  datatype Flags = Flags(name: bool, define: bool, hash: bool, eol: bool, esc: bool, ws: bool)

  const INITIAL := Flags(false, false, false, true, false, false)

  /** `esc` after looking at a token that is not spliced away. */
  function Escape(f: Flags, k: Kind): Flags {
    f.(esc := if k == Eol then f.esc else k == BSlash && !f.esc)
  }

  /** The other flags after a token that stays in the stream. */
  function Note(f: Flags, k: Kind): Flags {
    var f := f.(ws := false);
    if k == Eol then f.(eol := true)
    else if k == Hash then if f.eol then f.(hash := true, eol := false) else f
    else if k == Define then if f.hash then f.(define := true, hash := false) else f
    else if k == Name then if f.define then f.(name := true, define := false) else f
    else f.(name := false, define := false, hash := false, eol := false)
  }

  /** The masked copy that tells `#define f(x)` from `#define f (x)`. */
  function Marker(id: nat, t: Token): Token {
    Token(id, t.lex.(kind := NoWhitespace,
                     text := if t.lex.text == "" then "" else t.lex.text[0 := '\U{A0}']))
  }

  // ----- the reference: one pass over the scanned tokens, no cursor -----

  datatype Pass = Pass(out: seq<Token>, next: nat, f: Flags)

  function Keep(s: Pass, t: Token): Pass {
    Pass(s.out + [t], s.next, Note(Escape(s.f, t.lex.kind), t.lex.kind))
  }

  predicate NeedsMarker(f: Flags, k: Kind) {
    k == LParen && f.name && !f.ws
  }

  function InsertMarker(s: Pass, t: Token): Pass {
    Keep(Pass(s.out, s.next + 1, s.f.(name := false)), Marker(s.next, t))
  }

  predicate Spliced(s: Pass, k: Kind) {
    k == Eol && s.f.esc && |s.out| > 0
  }

  function Feed(s: Pass, t: Token): Pass {
    var k := t.lex.kind;
    if k == Comment || k == Attribute then s
    else if Spliced(s, k) then s.(out := s.out[..|s.out| - 1], f := s.f.(esc := false))
    else if k == Whitespace then s.(f := Escape(s.f, k).(name := false, ws := true))
    else if NeedsMarker(s.f, k) then Keep(InsertMarker(s, t), t)
    else Keep(s, t)
  }

  /** The pass over the first `p` tokens. */
  function PassTo(input: seq<Token>, p: nat, next: nat): Pass
    requires p <= |input|
  {
    if p == 0 then Pass([], next, INITIAL) else Feed(PassTo(input, p - 1, next), input[p - 1])
  }

  function Whole(input: seq<Token>, next: nat): Pass {
    PassTo(input, |input|, next)
  }

  predicate EndsSpliceable(ts: seq<Token>) {
    |ts| >= 2 && ts[|ts| - 2].Is(BSlash) && ts[|ts| - 1].Is(Eol)
  }

  function StripEnd(ts: seq<Token>): seq<Token> {
    if EndsSpliceable(ts) then StripEnd(ts[..|ts| - 2]) else ts
  }

  /** A line splice so close to the end that the cursor is thrown back onto kept tokens. */
  predicate LateSplice(input: seq<Token>, next: nat) {
    var n := |input|;
    || (n >= 1 && Spliced(PassTo(input, n - 1, next), input[n - 1].lex.kind))
    || (n >= 2 && Spliced(PassTo(input, n - 2, next), input[n - 2].lex.kind) && input[n - 1].Is(Eol))
  }

  /** What stage 1 leaves in the stream. */
  function Result(input: seq<Token>, next: nat): seq<Token> {
    var out := Whole(input, next).out;
    if LateSplice(input, next) then StripEnd(out) else out
  }

  // ----- one iteration of the loop on the stream -----

  datatype Loop = Loop(tokens: seq<Token>, index: nat, next: nat, f: Flags)

  /** Where a deletion leaves the cursor: pulled back onto the last token at the end. */
  function Clip(index: nat, count: nat): nat {
    if index < count then index else if count > 0 then count - 1 else 0
  }

  function Prev(index: nat): nat {
    if index > 0 then index - 1 else 0
  }

  function DelCur(l: Loop): Loop
    requires l.index < |l.tokens|
  {
    l.(tokens := l.tokens[..l.index] + l.tokens[l.index + 1..], index := Clip(l.index, |l.tokens| - 1))
  }

  predicate MaySplice(l: Loop) {
    l.index < |l.tokens| && l.tokens[l.index].Is(Eol) && l.f.esc
  }

  /** The token before the cursor is a backslash. */
  predicate AfterBackslash(l: Loop) {
    0 < l.index <= |l.tokens| && l.tokens[l.index - 1].Is(BSlash)
  }

  /** A backslash and the line end after it are taken out; the cursor goes back one token, after
      being pulled back to the last one if need be. */
  function Splice(l: Loop): Loop
    requires l.index < |l.tokens| && AfterBackslash(l)
  {
    var i := l.index;
    Loop(l.tokens[..i - 1] + l.tokens[i + 1..], Prev(Clip(i, |l.tokens| - 2)), l.next, l.f.(esc := false))
  }

  function Iterate(l: Loop): Loop
    requires l.index < |l.tokens|
    requires MaySplice(l) ==> AfterBackslash(l)
  {
    var t, i := l.tokens[l.index], l.index;
    var k := t.lex.kind;
    if k == Comment || k == Attribute then DelCur(l)
    else if MaySplice(l) then Splice(l)
    else
      var f := Escape(l.f, k);
      if k == Whitespace then DelCur(l.(f := f.(name := false, ws := true)))
      else if NeedsMarker(f, k) then
        Loop(l.tokens[..i] + [Marker(l.next, t)] + l.tokens[i..], i, l.next + 1, f.(name := false))
      else
        l.(index := i + 1, f := Note(f, k))
  }

  lemma IterateDrops(l: Loop)
    requires l.index < |l.tokens| && l.tokens[l.index].lex.kind in {Comment, Attribute}
    ensures Iterate(l) == DelCur(l)
  {
  }

  lemma IterateSplices(l: Loop)
    requires MaySplice(l) && AfterBackslash(l)
    ensures Iterate(l) == Splice(l)
  {
  }

  lemma IterateSkipsSpace(l: Loop)
    requires l.index < |l.tokens| && l.tokens[l.index].Is(Whitespace)
    ensures Iterate(l) == DelCur(l.(f := Escape(l.f, Whitespace).(name := false, ws := true)))
  {
  }

  lemma IterateMarks(l: Loop)
    requires l.index < |l.tokens| && l.tokens[l.index].Is(LParen) && Escape(l.f, LParen).name && !Escape(l.f, LParen).ws
    ensures var t, i := l.tokens[l.index], l.index;
            Iterate(l) == Loop(l.tokens[..i] + [Marker(l.next, t)] + l.tokens[i..], i, l.next + 1, Escape(l.f,
                LParen).(name := false))
  {
  }

  lemma IterateKeeps(l: Loop)
    requires l.index < |l.tokens| && !MaySplice(l)
    requires var k := l.tokens[l.index].lex.kind;
             !Blank(k) && !(k == LParen && Escape(l.f, k).name && !Escape(l.f, k).ws)
    ensures var k := l.tokens[l.index].lex.kind; Iterate(l) == l.(index := l.index + 1, f := Note(Escape(l.f, k), k))
  {
    hide Note;
  }

  // ----- what holds between two tokens of the pass -----

  ghost predicate Good(s: Pass) {
    && (s.f.esc ==> |s.out| > 0 && s.out[|s.out| - 1].Is(BSlash))
    && (s.f.esc ==> !s.f.name && !s.f.define && !s.f.hash)
    && (forall j :: 0 <= j < |s.out| ==> !Blank(s.out[j].lex.kind))
    && (s.f.name ==> |s.out| > 0 && !s.out[|s.out| - 1].Is(LParen))
  }

  lemma GoodKeep(s: Pass, t: Token)
    requires Good(s) && !Blank(t.lex.kind) && !(t.Is(Eol) && s.f.esc)
    ensures Good(Keep(s, t))
  {
    assert Keep(s, t).out[|s.out|] == t;
  }

  lemma {:induction false} PassGood(input: seq<Token>, p: nat, next: nat)
    requires p <= |input|
    ensures Good(PassTo(input, p, next))
  {
    if p > 0 {
      PassGood(input, p - 1, next);
      var s, t := PassTo(input, p - 1, next), input[p - 1];
      if Blank(t.lex.kind) || Spliced(s, t.lex.kind) {
      } else if NeedsMarker(s.f, t.lex.kind) {
        GoodKeep(Pass(s.out, s.next + 1, s.f.(name := false)), Marker(s.next, t));
        GoodKeep(InsertMarker(s, t), t);
      } else {
        GoodKeep(s, t);
      }
    }
  }

  // ----- how far the loop is compared with the pass -----

  predicate Idle(f: Flags) {
    !f.name && !f.define && !f.hash && !f.esc
  }

  /** The last token of the pass over `p` tokens closed a line splice. */
  predicate JustSpliced(input: seq<Token>, p: nat, next: nat)
    requires p <= |input|
  {
    p > 0 && Spliced(PassTo(input, p - 1, next), input[p - 1].lex.kind)
  }

  datatype Phase = Normal | AtMarker | AfterMarker | LateFirst | LateSecond | TrapFirst | TrapSecond | Tail

  /** The kept tokens lie before the cursor, the unread ones from it on. */
  ghost predicate InNormal(input: seq<Token>, next: nat, p: nat, l: Loop)
    requires p <= |input|
  {
    var s := PassTo(input, p, next);
    && l.index == |s.out| && l.tokens == s.out + input[p..] && l.f == s.f && l.next == s.next
    && (p == |input| && LateSplice(input, next) ==> !EndsSpliceable(s.out))
    && (p == |input| - 1 && JustSpliced(input, p, next) ==> s.out == [])
  }

  /** A marker was inserted at the cursor (`passed`: and stepped over). */
  ghost predicate InMarker(input: seq<Token>, next: nat, p: nat, l: Loop, passed: bool)
    requires p <= |input|
  {
    var s := PassTo(input, p, next);
    && p < |input| && NeedsMarker(s.f, input[p].lex.kind) && l.next == s.next + 1
    && l.tokens == s.out + [Marker(s.next, input[p])] + input[p..]
    && (if passed then l.index == |s.out| + 1 && l.f == InsertMarker(s, input[p]).f
        else l.index == |s.out| && !l.f.name)
  }

  /** A splice left one unread token: the kept token before it is seen again (`passed`: was). */
  ghost predicate InLate(input: seq<Token>, next: nat, p: nat, l: Loop, passed: bool)
    requires p <= |input|
  {
    var s := PassTo(input, p, next);
    && p == |input| - 1 && JustSpliced(input, p, next) && l.next == s.next
    && |s.out| > 0 && l.tokens == s.out + [input[p]] && Idle(s.f)
    && (if passed then l.index == |s.out| && l.f.esc == s.out[|s.out| - 1].Is(BSlash) && !l.f.name
        && (l.f.esc ==> Idle(l.f.(esc := false)))
        else l.index == |s.out| - 1 && Idle(l.f))
  }

  /** The last two kept tokens are seen again and will be spliced (`passed`: first one seen). */
  ghost predicate InTrap(input: seq<Token>, next: nat, p: nat, l: Loop, passed: bool) {
    var n := |l.tokens|;
    && p == |input| && EndsSpliceable(l.tokens) && l.next == Whole(input, next).next
    && StripEnd(l.tokens) == Result(input, next)
    && (forall j :: 0 <= j < n ==> !Blank(l.tokens[j].lex.kind))
    && (if passed then l.index == n - 1 && l.f.esc && !l.f.name && !l.f.define && !l.f.hash
        else l.index == n - 2 && Idle(l.f))
  }

  /** Kept tokens at the end are seen again without effect. */
  ghost predicate InTail(input: seq<Token>, next: nat, p: nat, l: Loop) {
    && p == |input| && l.next == Whole(input, next).next && l.tokens == Result(input, next)
    && Passive(l)
  }

  ghost predicate Passive(l: Loop) {
    var n := |l.tokens|;
    && n - 2 <= l.index <= n
    && (l.index == n - 2 ==> Idle(l.f) && !EndsSpliceable(l.tokens))
    && (l.index == n - 1 ==> (l.f.name ==> !l.tokens[l.index].Is(LParen)) && (l.f.esc ==> !l.tokens[l.index].Is(Eol)))
    && (forall j :: 0 <= j < n ==> !Blank(l.tokens[j].lex.kind))
  }

  ghost predicate Sim(input: seq<Token>, next: nat, p: nat, ph: Phase, l: Loop) {
    && p <= |input|
    && match ph
       case Normal => InNormal(input, next, p, l)
       case AtMarker => InMarker(input, next, p, l, false)
       case AfterMarker => InMarker(input, next, p, l, true)
       case LateFirst => InLate(input, next, p, l, false)
       case LateSecond => InLate(input, next, p, l, true)
       case TrapFirst => InTrap(input, next, p, l, false)
       case TrapSecond => InTrap(input, next, p, l, true)
       case Tail => InTail(input, next, p, l)
  }

  ghost function Rank(ph: Phase): nat {
    match ph case Normal => 2 case AtMarker => 1 case _ => 0
  }

  /** The lexicographic measure under which every iteration makes progress. */
  ghost predicate Progress(p: nat, ph: Phase, l: Loop, p': nat, ph': Phase, l': Loop) {
    || p' > p
    || (p' == p && Rank(ph') < Rank(ph))
    || (p' == p && Rank(ph') == Rank(ph) && |l'.tokens| < |l.tokens|)
    || (p' == p && Rank(ph') == Rank(ph) && |l'.tokens| == |l.tokens| && l'.index > l.index)
  }

  lemma SimStart(input: seq<Token>, next: nat)
    ensures Sim(input, next, 0, Normal, Loop(input, 0, next, INITIAL))
  {
    assert input[0..] == input;
  }

  lemma SimBounds(input: seq<Token>, next: nat, p: nat, ph: Phase, l: Loop)
    requires Sim(input, next, p, ph, l)
    ensures p <= |input| && l.index <= |l.tokens|
  {
  }

  lemma NormalSplit(input: seq<Token>, next: nat, p: nat, l: Loop)
    requires Sim(input, next, p, Normal, l) && l.index < |l.tokens|
    ensures p < |input| && l.tokens[l.index] == input[p]
    ensures l.tokens[..l.index] == PassTo(input, p, next).out
    ensures l.tokens[l.index..] == input[p..] && l.tokens[l.index + 1..] == input[p + 1..]
  {
    var s := PassTo(input, p, next);
    assert input[p..][0] == input[p];
    assert l.tokens[l.index..] == input[p..];
  }

  lemma NormalBlank(input: seq<Token>, next: nat, p: nat, l: Loop) returns (ph': Phase)
    requires Sim(input, next, p, Normal, l) && l.index < |l.tokens|
    requires Blank(l.tokens[l.index].lex.kind)
    ensures Sim(input, next, p + 1, ph', Iterate(l))
  {
    NormalSplit(input, next, p, l);
    PassGood(input, p + 1, next);
    var s', l' := PassTo(input, p + 1, next), Iterate(l);
    assert l'.tokens == s'.out + input[p + 1..];
    assert !JustSpliced(input, p + 1, next);
    if p + 1 < |input| || s'.out == [] {
      ph' := Normal;
    } else {
      assert !LateSplice(input, next) && l'.tokens == s'.out;
      ph' := Tail;
    }
  }

  lemma NormalBackslash(input: seq<Token>, next: nat, p: nat, l: Loop)
    requires Sim(input, next, p, Normal, l) && MaySplice(l)
    ensures AfterBackslash(l)
  {
    PassGood(input, p, next);
    var s := PassTo(input, p, next);
    assert l.tokens[l.index - 1] == s.out[|s.out| - 1];
  }

  /** A splice leaves the kept tokens and the unread ones; only the cursor may be off. */
  lemma NormalSplice(input: seq<Token>, next: nat, p: nat, l: Loop)
    requires Sim(input, next, p, Normal, l) && MaySplice(l) && AfterBackslash(l)
    ensures p < |input| && JustSpliced(input, p + 1, next)
    ensures var s', l' := PassTo(input, p + 1, next), Iterate(l);
            && l'.tokens == s'.out + input[p + 1..] && l'.f == s'.f && l'.next == s'.next && Idle(s'.f)
            && l'.index == Prev(Clip(|s'.out| + 1, |l'.tokens|))
  {
    NormalSplit(input, next, p, l);
    PassGood(input, p, next);
    var s, i := PassTo(input, p, next), l.index;
    assert l.tokens[..i - 1] == s.out[..i - 1];
  }

  lemma AfterSplice(input: seq<Token>, next: nat, p: nat, l: Loop) returns (ph: Phase)
    requires 0 < p <= |input| && JustSpliced(input, p, next)
    requires var s := PassTo(input, p, next);
             && l.tokens == s.out + input[p..] && l.f == s.f && l.next == s.next && Idle(s.f)
             && l.index == Prev(Clip(|s.out| + 1, |l.tokens|))
    ensures Sim(input, next, p, ph, l)
  {
    var n := |PassTo(input, p, next).out|;
    if p == |input| {
      ph := AfterLastSplice(input, next, l);
    } else if p + 1 == |input| && n > 0 {
      assert input[p..] == [input[p]];
      ph := LateFirst;
    } else {
      ph := Normal;
      assert InNormal(input, next, p, l);
    }
  }

  lemma AfterLastSplice(input: seq<Token>, next: nat, l: Loop) returns (ph: Phase)
    requires 0 < |input| && JustSpliced(input, |input|, next)
    requires var s := Whole(input, next);
             && l.tokens == s.out + input[|input|..] && l.f == s.f && l.next == s.next && Idle(s.f)
             && l.index == Prev(Clip(|s.out| + 1, |l.tokens|))
    ensures Sim(input, next, |input|, ph, l)
  {
    PassGood(input, |input|, next);
    var s := Whole(input, next);
    assert LateSplice(input, next) && l.tokens == s.out;
    if s.out == [] {
      ph := Normal;
      assert InNormal(input, next, |input|, l);
    } else if EndsSpliceable(s.out) {
      ph := TrapFirst;
      assert InTrap(input, next, |input|, l, false);
    } else {
      ph := Tail;
      assert InTail(input, next, |input|, l);
    }
  }

  lemma NormalKeep(input: seq<Token>, next: nat, p: nat, l: Loop)
    requires Sim(input, next, p, Normal, l) && l.index < |l.tokens|
    requires !Blank(l.tokens[l.index].lex.kind) && !MaySplice(l) && !NeedsMarker(l.f, l.tokens[l.index].lex.kind)
    ensures Sim(input, next, p + 1, Normal, Iterate(l))
  {
    NormalSplit(input, next, p, l);
    PassGood(input, p, next);
    var s, t, l' := PassTo(input, p, next), input[p], Iterate(l);
    var s' := PassTo(input, p + 1, next);
    assert s' == Keep(s, t);
    assert l'.tokens == s'.out + input[p + 1..];
    NormalKeepEnd(input, next, p, s, t);
    assert InNormal(input, next, p + 1, l');
  }

  lemma NormalKeepEnd(input: seq<Token>, next: nat, p: nat, s: Pass, t: Token)
    requires p < |input| && t == input[p] && s == PassTo(input, p, next)
    requires PassTo(input, p + 1, next) == Keep(s, t) && !Spliced(s, t.lex.kind)
    requires p == |input| - 1 && JustSpliced(input, p, next) ==> s.out == []
    ensures !JustSpliced(input, p + 1, next)
    ensures p + 1 == |input| && LateSplice(input, next) ==> !EndsSpliceable(Keep(s, t).out)
  {
  }

  lemma NormalMarker(input: seq<Token>, next: nat, p: nat, l: Loop)
    requires Sim(input, next, p, Normal, l) && l.index < |l.tokens|
    requires NeedsMarker(l.f, l.tokens[l.index].lex.kind)
    ensures !MaySplice(l) && Sim(input, next, p, AtMarker, Iterate(l))
  {
    NormalSplit(input, next, p, l);
  }

  lemma NormalSpliced(input: seq<Token>, next: nat, p: nat, l: Loop) returns (ph: Phase)
    requires Sim(input, next, p, Normal, l) && MaySplice(l)
    ensures AfterBackslash(l) && Sim(input, next, p + 1, ph, Iterate(l))
  {
    hide Sim, Iterate, JustSpliced, PassTo, AfterBackslash;
    NormalBackslash(input, next, p, l);
    NormalSplice(input, next, p, l);
    ph := AfterSplice(input, next, p + 1, Iterate(l));
  }

  lemma SimNormal(input: seq<Token>, next: nat, p: nat, l: Loop) returns (p': nat, ph': Phase)
    requires Sim(input, next, p, Normal, l) && l.index < |l.tokens|
    ensures MaySplice(l) ==> AfterBackslash(l)
    ensures Sim(input, next, p', ph', Iterate(l)) && Progress(p, Normal, l, p', ph', Iterate(l))
  {
    hide Sim, Iterate, JustSpliced, PassTo, AfterBackslash;
    NormalSplit(input, next, p, l);
    p' := p + 1;
    if Blank(l.tokens[l.index].lex.kind) {
      ph' := NormalBlank(input, next, p, l);
    } else if MaySplice(l) {
      ph' := NormalSpliced(input, next, p, l);
    } else if NeedsMarker(l.f, l.tokens[l.index].lex.kind) {
      NormalMarker(input, next, p, l);
      p', ph' := p, AtMarker;
    } else {
      NormalKeep(input, next, p, l);
      ph' := Normal;
    }
  }

  lemma SimMarker(input: seq<Token>, next: nat, p: nat, l: Loop, passed: bool) returns (p': nat, ph': Phase)
    requires p <= |input| && InMarker(input, next, p, l, passed)
    ensures l.index < |l.tokens| && !MaySplice(l)
    ensures Sim(input, next, p', ph', Iterate(l))
    ensures Progress(p, if passed then AfterMarker else AtMarker, l, p', ph', Iterate(l))
  {
    if !passed {
      AtTheMarker(input, next, p, l);
      p', ph' := p, AfterMarker;
    } else {
      BehindMarker(input, next, p, l);
      p', ph' := p + 1, Normal;
    }
  }

  lemma AtTheMarker(input: seq<Token>, next: nat, p: nat, l: Loop)
    requires p <= |input| && InMarker(input, next, p, l, false)
    ensures l.index < |l.tokens| && !MaySplice(l)
    ensures Sim(input, next, p, AfterMarker, Iterate(l))
  {
    hide PassTo, Result, LateSplice, JustSpliced, Idle, Passive;
    assert l.tokens[l.index].Is(NoWhitespace);
  }

  /** The pass over the parenthesis that a marker is inserted for. */
  lemma FeedMarked(input: seq<Token>, next: nat, p: nat)
    requires p < |input|
    requires NeedsMarker(PassTo(input, p, next).f, input[p].lex.kind)
    ensures var s, t := PassTo(input, p, next), input[p];
            && PassTo(input, p + 1, next) == Keep(InsertMarker(s, t), t) && !InsertMarker(s, t).f.name
            && InsertMarker(s, t).out == s.out + [Marker(s.next, t)] && InsertMarker(s, t).next == s.next + 1
    ensures !JustSpliced(input, p + 1, next)
  {
  }

  lemma BehindMarker(input: seq<Token>, next: nat, p: nat, l: Loop)
    requires p <= |input| && InMarker(input, next, p, l, true)
    ensures l.index < |l.tokens| && !MaySplice(l)
    ensures Sim(input, next, p + 1, Normal, Iterate(l))
  {
    hide LateSplice, Result, Whole, PassTo, JustSpliced, Note, Marker, InsertMarker;
    FeedMarked(input, next, p);
    var s, t := PassTo(input, p, next), input[p];
    var s', l' := PassTo(input, p + 1, next), Iterate(l);
    assert l.tokens[l.index] == input[p..][0] == t;
    assert input[p..] == [t] + input[p + 1..];
    assert l'.tokens == s'.out + input[p + 1..];
    assert s'.out[|s'.out| - 1] == t && !EndsSpliceable(s'.out);
  }

  lemma SimLateFirst(input: seq<Token>, next: nat, p: nat, l: Loop)
    requires Sim(input, next, p, LateFirst, l)
    ensures l.index < |l.tokens| && !MaySplice(l)
    ensures Sim(input, next, p, LateSecond, Iterate(l))
  {
    PassGood(input, p, next);
    var s := PassTo(input, p, next);
    assert l.tokens[l.index] == s.out[|s.out| - 1];
    hide PassTo, JustSpliced, Result, StripEnd, LateSplice, Passive;
  }

  lemma LateSecondKept(input: seq<Token>, next: nat, p: nat, l: Loop) returns (ph': Phase)
    requires Sim(input, next, p, LateSecond, l) && !Blank(input[p].lex.kind)
    ensures l.index < |l.tokens| && (MaySplice(l) ==> AfterBackslash(l))
    ensures Sim(input, next, p + 1, ph', Iterate(l))
  {
    PassGood(input, p + 1, next);
    var s, t := PassTo(input, p, next), input[p];
    var s' := Whole(input, next);
    assert l.tokens[l.index] == t && s' == Feed(s, t) == Keep(s, t);
    assert s'.out == l.tokens;
    LateEnd(input, next, p);
    assert EndsSpliceable(l.tokens) <==> MaySplice(l);
    if MaySplice(l) {
      ph' := AfterTrap(input, next, l);
    } else {
      ph' := Tail;
      LateStays(l);
      assert Result(input, next) == l.tokens;
    }
  }

  lemma LateStays(l: Loop)
    requires l.index < |l.tokens| && l.index == |l.tokens| - 1 && !MaySplice(l) && !l.f.name
    requires forall j :: 0 <= j < |l.tokens| ==> !Blank(l.tokens[j].lex.kind)
    ensures Passive(Iterate(l)) && Iterate(l) == l.(index := |l.tokens|, f := Iterate(l).f)
  {
  }

  lemma LateSecondBlank(input: seq<Token>, next: nat, p: nat, l: Loop)
    requires Sim(input, next, p, LateSecond, l) && Blank(input[p].lex.kind)
    ensures l.index < |l.tokens| && !MaySplice(l)
    ensures Sim(input, next, p + 1, Tail, Iterate(l))
  {
    PassGood(input, p, next);
    var s, t, l' := PassTo(input, p, next), input[p], Iterate(l);
    assert l.tokens[l.index] == t && Feed(s, t) == Whole(input, next);
    assert l'.tokens == s.out;
    LateEnd(input, next, p);
    assert l'.index == |s.out| - 1 && l'.tokens[l'.index] == l.tokens[l'.index];
    assert InTail(input, next, p + 1, l');
  }

  lemma SimLateSecond(input: seq<Token>, next: nat, p: nat, l: Loop) returns (ph': Phase)
    requires Sim(input, next, p, LateSecond, l)
    ensures l.index < |l.tokens| && (MaySplice(l) ==> AfterBackslash(l))
    ensures Sim(input, next, p + 1, ph', Iterate(l))
  {
    if Blank(input[p].lex.kind) {
      LateSecondBlank(input, next, p, l);
      ph' := Tail;
    } else {
      ph' := LateSecondKept(input, next, p, l);
    }
  }

  lemma LateEnd(input: seq<Token>, next: nat, p: nat)
    requires p == |input| - 1 && JustSpliced(input, p, next) && Idle(PassTo(input, p, next).f)
    ensures LateSplice(input, next) <==> input[p].Is(Eol)
  {
  }

  /** Splicing the last two tokens away throws the cursor back once more. */
  lemma AfterTrap(input: seq<Token>, next: nat, l: Loop) returns (ph': Phase)
    requires |l.tokens| == l.index + 1 && EndsSpliceable(l.tokens) && l.f.esc
    requires !l.f.name && !l.f.define && !l.f.hash
    requires StripEnd(l.tokens) == Result(input, next) && l.next == Whole(input, next).next
    requires forall j :: 0 <= j < |l.tokens| ==> !Blank(l.tokens[j].lex.kind)
    ensures Sim(input, next, |input|, ph', Iterate(l)) && |Iterate(l).tokens| < |l.tokens|
    ensures Rank(ph') == 0
  {
    var l' := Iterate(l);
    assert l'.tokens == l.tokens[..|l.tokens| - 2];
    ph' := if EndsSpliceable(l'.tokens) then TrapFirst else Tail;
  }

  lemma SimTrap(input: seq<Token>, next: nat, p: nat, l: Loop, passed: bool) returns (ph': Phase)
    requires p <= |input| && InTrap(input, next, p, l, passed)
    ensures l.index < |l.tokens| && (MaySplice(l) ==> AfterBackslash(l))
    ensures Sim(input, next, p, ph', Iterate(l))
    ensures Progress(p, if passed then TrapSecond else TrapFirst, l, p, ph', Iterate(l))
  {
    if passed {
      ph' := AfterTrap(input, next, l);
    } else {
      ph' := TrapSecond;
      assert InTrap(input, next, p, Iterate(l), true);
    }
  }

  lemma PassiveStays(l: Loop)
    requires Passive(l) && l.index < |l.tokens|
    ensures !MaySplice(l) && Passive(Iterate(l))
    ensures Iterate(l) == l.(index := l.index + 1, f := Iterate(l).f)
  {
    var k, l' := l.tokens[l.index].lex.kind, Iterate(l);
    assert !Blank(k) && !NeedsMarker(Escape(l.f, k), k);
    if l'.index == |l.tokens| - 1 {
      assert !l'.f.name && (l'.f.esc ==> k == BSlash);
    }
  }

  lemma SimTail(input: seq<Token>, next: nat, p: nat, l: Loop)
    requires Sim(input, next, p, Tail, l) && l.index < |l.tokens|
    ensures !MaySplice(l)
    ensures Sim(input, next, p, Tail, Iterate(l)) && Progress(p, Tail, l, p, Tail, Iterate(l))
  {
    PassiveStays(l);
  }

  /** Each iteration follows the reference and makes progress. */
  lemma SimStep(input: seq<Token>, next: nat, p: nat, ph: Phase, l: Loop) returns (p': nat, ph': Phase)
    requires Sim(input, next, p, ph, l) && l.index < |l.tokens|
    ensures MaySplice(l) ==> AfterBackslash(l)
    ensures Sim(input, next, p', ph', Iterate(l)) && Progress(p, ph, l, p', ph', Iterate(l))
  {
    p' := p;
    match ph
    case Normal => p', ph' := SimNormal(input, next, p, l);
    case AtMarker => p', ph' := SimMarker(input, next, p, l, false);
    case AfterMarker => p', ph' := SimMarker(input, next, p, l, true);
    case LateFirst => SimLateFirst(input, next, p, l); ph' := LateSecond;
    case LateSecond => ph' := SimLateSecond(input, next, p, l); p' := p + 1;
    case TrapFirst => ph' := SimTrap(input, next, p, l, false);
    case TrapSecond => ph' := SimTrap(input, next, p, l, true);
    case Tail => SimTail(input, next, p, l); ph' := Tail;
  }

  /** When the cursor runs off the end, the stream is the reference result. */
  lemma SimDone(input: seq<Token>, next: nat, p: nat, ph: Phase, l: Loop)
    requires Sim(input, next, p, ph, l) && l.index >= |l.tokens|
    ensures l.tokens == Result(input, next) && l.next == Whole(input, next).next
  {
    if ph == Normal {
      assert input[p..] == [];
      assert l.tokens == Whole(input, next).out;
    }
  }
}
