/** What a round of stage 2 does, told from the types of the tokens that were read before. */
module StageTwoReads {
  import opened Options
  import opened Tokens
  import opened Replacing
  import opened StageTwo
  import opened StageTwoRuns
  import opened StageTwoFacts
  import Conditionals
  import Stage = StageOne

  /** The types of the tokens that the rounds of a run found at the cursor, one for each round. */
  function Reads(run: Run): seq<Kind> {
    match run
    case Begin(_) => []
    case Then(before, _, _) =>
      var a := Last(before);
      Reads(before) + if a.index < |a.tokens| then [a.tokens[a.index].lex.kind] else []
  }

  // ----- what was read before position `n` -----

  /** Between `i` and `n` there are tokens of the types `ks` only. */
  predicate Only(r: seq<Kind>, i: int, n: nat, ks: set<Kind>) {
    forall j :: 0 <= j && i < j < n && j < |r| ==> r[j] in ks
  }

  predicate SameLine(r: seq<Kind>, i: int, n: nat) {
    forall j :: 0 <= j && i < j < n && j < |r| ==> r[j] != Eol
  }

  predicate LineBegins(r: seq<Kind>, n: nat)
    requires n <= |r|
  {
    n == 0 || r[n - 1] == Eol
  }

  /** A directive is being read: its HASH is the first token of the line. */
  ghost predicate Inside(r: seq<Kind>, n: nat)
    requires n <= |r|
  {
    exists h: nat :: h < n && r[h] == Hash && LineBegins(r, h) && SameLine(r, h, n)
  }

  /** It is a definition. */
  ghost predicate AfterDefine(r: seq<Kind>, n: nat)
    requires n <= |r|
  {
    exists d: nat :: d < n && r[d] == Define && Inside(r, d) && SameLine(r, d, n)
  }

  /** A parenthesis that counts: in a directive that is no definition. */
  ghost predicate Counts(r: seq<Kind>, p: nat)
    requires p < |r|
  {
    r[p] == LParen && Inside(r, p) && !AfterDefine(r, p)
  }

  ghost predicate NoneCounts(r: seq<Kind>, i: nat, n: nat)
    requires n <= |r|
  {
    forall p :: i < p < n ==> !Counts(r, p)
  }

  /** The last DEFINED in a directive still waits for its parenthesis, be it in an earlier line. */
  ghost predicate Waits(r: seq<Kind>, n: nat)
    requires n <= |r|
  {
    exists i: nat :: i < n && r[i] == Defined && Inside(r, i) && NoneCounts(r, i, n)
  }

  predicate Word(k: Kind) {
    k == Ifdef || k == Ifndef || k == Undef || k == Defined
  }

  /** A word that takes a name was read in this directive, and nothing after it but names, and HASH. */
  ghost predicate AfterWord(r: seq<Kind>, n: nat)
    requires n <= |r|
  {
    exists w: nat :: w < n && Word(r[w]) && Inside(r, w) && Only(r, w, n, {Name, Hash})
  }

  /** The same, with the parenthesis of a DEFINED. */
  ghost predicate AfterParen(r: seq<Kind>, n: nat)
    requires n <= |r|
  {
    exists p: nat :: p < n && r[p] == LParen && AfterWord(r, p) && Waits(r, p) && Only(r, p, n, {Name, Hash})
  }

  /** Names are taken as they are. */
  ghost predicate Literal(r: seq<Kind>, n: nat)
    requires n <= |r|
  {
    AfterDefine(r, n) || AfterWord(r, n) || AfterParen(r, n)
  }

  // ----- one token more -----

  lemma OnlyStep(r: seq<Kind>, i: int, n: nat, ks: set<Kind>)
    requires i < n < |r|
    ensures Only(r, i, n + 1, ks) <==> Only(r, i, n, ks) && r[n] in ks
    ensures SameLine(r, i, n + 1) <==> SameLine(r, i, n) && r[n] != Eol
  {
  }

  lemma OnlyNone(r: seq<Kind>, n: nat, ks: set<Kind>)
    ensures Only(r, n, n + 1, ks) && SameLine(r, n, n + 1)
  {
  }

  lemma InsideStep(r: seq<Kind>, n: nat)
    requires n < |r|
    ensures Inside(r, n + 1) <==> r[n] != Eol && (Inside(r, n) || (r[n] == Hash && LineBegins(r, n)))
    ensures Inside(r, n) ==> !LineBegins(r, n)
  {
    hide SameLine;
    OnlyNone(r, n, {});
    if Inside(r, n + 1) {
      var h: nat :| h < n + 1 && r[h] == Hash && LineBegins(r, h) && SameLine(r, h, n + 1);
      if h < n {
        OnlyStep(r, h, n, {});
      }
    }
    if Inside(r, n) {
      var h: nat :| h < n && r[h] == Hash && LineBegins(r, h) && SameLine(r, h, n);
      OnlyStep(r, h, n, {});
      LastOfLine(r, h, n);
    }
  }

  lemma LastOfLine(r: seq<Kind>, h: nat, n: nat)
    requires h < n <= |r| && r[h] != Eol && SameLine(r, h, n)
    ensures r[n - 1] != Eol
  {
  }

  lemma AfterDefineStep(r: seq<Kind>, n: nat)
    requires n < |r|
    ensures AfterDefine(r, n + 1) <==> r[n] != Eol && (AfterDefine(r, n) || (r[n] == Define && Inside(r, n)))
  {
    hide SameLine, Inside;
    OnlyNone(r, n, {});
    if AfterDefine(r, n + 1) {
      var d: nat :| d < n + 1 && r[d] == Define && Inside(r, d) && SameLine(r, d, n + 1);
      if d < n {
        OnlyStep(r, d, n, {});
      }
    }
    if AfterDefine(r, n) {
      var d: nat :| d < n && r[d] == Define && Inside(r, d) && SameLine(r, d, n);
      OnlyStep(r, d, n, {});
    }
  }

  lemma {:induction false} InsideStays(r: seq<Kind>, i: nat, n: nat)
    requires i <= n <= |r| && Inside(r, i) && (forall j :: i <= j < n ==> r[j] != Eol)
    ensures Inside(r, n)
  {
    if i < n {
      hide Inside;
      InsideStays(r, i, n - 1);
      InsideStep(r, n - 1);
    }
  }

  lemma DefineIsInside(r: seq<Kind>, n: nat)
    requires n <= |r| && AfterDefine(r, n)
    ensures Inside(r, n)
  {
    hide Inside;
    var d: nat :| d < n && r[d] == Define && Inside(r, d) && SameLine(r, d, n);
    InsideStays(r, d, n);
  }

  lemma WaitsStep(r: seq<Kind>, n: nat)
    requires n < |r|
    ensures Waits(r, n + 1) <==> (r[n] == Defined && Inside(r, n)) || (Waits(r, n) && !Counts(r, n))
  {
    hide Inside, Counts;
    if Waits(r, n + 1) {
      var i: nat :| i < n + 1 && r[i] == Defined && Inside(r, i) && NoneCounts(r, i, n + 1);
      if i < n {
        assert NoneCounts(r, i, n);
      }
    }
    if Waits(r, n) && !Counts(r, n) {
      var i: nat :| i < n && r[i] == Defined && Inside(r, i) && NoneCounts(r, i, n);
      assert NoneCounts(r, i, n + 1);
    }
    if r[n] == Defined && Inside(r, n) {
      assert NoneCounts(r, n, n + 1);
    }
  }

  lemma AfterWordStep(r: seq<Kind>, n: nat)
    requires n < |r|
    ensures AfterWord(r, n + 1) <==> (Word(r[n]) && Inside(r, n)) || (AfterWord(r, n) && r[n] in {Name, Hash})
  {
    hide Inside, Only;
    OnlyNone(r, n, {Name, Hash});
    if AfterWord(r, n + 1) {
      var w: nat :| w < n + 1 && Word(r[w]) && Inside(r, w) && Only(r, w, n + 1, {Name, Hash});
      if w < n {
        OnlyStep(r, w, n, {Name, Hash});
      }
    }
    if AfterWord(r, n) {
      var w: nat :| w < n && Word(r[w]) && Inside(r, w) && Only(r, w, n, {Name, Hash});
      OnlyStep(r, w, n, {Name, Hash});
    }
  }

  lemma AfterParenStep(r: seq<Kind>, n: nat)
    requires n < |r|
    ensures AfterParen(r, n + 1)
            <==> (r[n] == LParen && AfterWord(r, n) && Waits(r, n)) || (AfterParen(r, n) && r[n] in {Name, Hash})
  {
    hide AfterWord, Waits, Only;
    OnlyNone(r, n, {Name, Hash});
    if AfterParen(r, n + 1) {
      var p: nat :| p < n + 1 && r[p] == LParen && AfterWord(r, p) && Waits(r, p) && Only(r, p, n + 1, {Name, Hash});
      if p < n {
        OnlyStep(r, p, n, {Name, Hash});
      }
    }
    if AfterParen(r, n) {
      var p: nat :| p < n && r[p] == LParen && AfterWord(r, p) && Waits(r, p) && Only(r, p, n, {Name, Hash});
      OnlyStep(r, p, n, {Name, Hash});
    }
  }

  // ----- the flags -----

  /** What was read, as far as the flags go. */
  datatype View = View(line: bool, inside: bool, define: bool, waits: bool, word: bool, paren: bool)

  ghost function ViewAt(r: seq<Kind>, n: nat): View
    requires n <= |r|
  {
    View(LineBegins(r, n), Inside(r, n), AfterDefine(r, n), Waits(r, n), AfterWord(r, n), AfterParen(r, n))
  }

  function ViewAfter(v: View, k: Kind): View {
    View(
      k == Eol,
      k != Eol && (v.inside || (k == Hash && v.line)),
      k != Eol && (v.define || (k == Define && v.inside)),
      (k == Defined && v.inside) || (v.waits && !(k == LParen && v.inside && !v.define)),
      (Word(k) && v.inside) || (v.word && (k == Name || k == Hash)),
      (k == LParen && v.word && v.waits) || (v.paren && (k == Name || k == Hash)))
  }

  predicate Shows(v: View, s: Scan) {
    && s.isEol == v.line && s.doCpp == v.inside && s.skipAll == v.define && s.skipParen == v.waits
    && s.doExpansion == !(v.define || v.word || v.paren)
    && (v.define || v.word || v.paren ==> v.inside) && !(v.inside && v.line)
    && (v.paren && !v.define ==> !v.waits && !v.word)
  }

  lemma ShowsAfter(v: View, s: Scan, k: Kind)
    requires Shows(v, s)
    ensures var s' := Look(s, k); Shows(ViewAfter(v, k), if k == Eol then s'.(doCpp := false) else s')
    ensures Look(s, k).doCpp <==> v.inside || (k == Hash && v.line)
  {
  }

  lemma ViewStep(r: seq<Kind>, n: nat)
    requires n < |r|
    ensures ViewAt(r, n + 1) == ViewAfter(ViewAt(r, n), r[n])
  {
    InsideStep(r, n);
    AfterDefineStep(r, n);
    WaitsStep(r, n);
    AfterWordStep(r, n);
    AfterParenStep(r, n);
    hide Inside, AfterDefine, Waits, AfterWord, AfterParen;
  }

  /** What the flags say after `n` tokens. */
  ghost predicate Tells(r: seq<Kind>, n: nat, s: Scan)
    requires n <= |r|
  {
    Shows(ViewAt(r, n), s)
  }

  lemma TellsStep(r: seq<Kind>, n: nat, s: Scan)
    requires n < |r| && Tells(r, n, s)
    ensures var s' := Look(s, r[n]); Tells(r, n + 1, if r[n] == Eol then s'.(doCpp := false) else s')
    ensures Look(s, r[n]).doCpp <==> Inside(r, n) || (r[n] == Hash && LineBegins(r, n))
  {
    hide ViewAfter, Shows, Look;
    ViewStep(r, n);
    ShowsAfter(ViewAt(r, n), s, r[n]);
  }

  lemma TellsBegins(r: seq<Kind>)
    ensures Tells(r, 0, BEGIN)
  {
  }

  lemma RoundScan(env: Env, a: Snap, how: How, b: Snap)
    requires Round(env, a, how, b)
    ensures var k := a.tokens[a.index].lex.kind;
            b.scan == if k == Eol then Look(a.scan, k).(doCpp := false) else Look(a.scan, k)
  {
    hide Effect, ExpandsTo, Settled;
  }

  /** In every run the flags are determined by the tokens read, and that as `Inside`, `Literal` and the others say. */
  lemma {:induction false} RunTells(env: Env, run: Run, r: seq<Kind>)
    requires IsRun(env, run) && Reads(run) <= r
    ensures Tells(r, |Reads(run)|, Last(run).scan)
  {
    hide Tells, Look;
    match run
    case Begin(_) =>
      TellsBegins(r);
    case Then(before, how, b) =>
      RunTells(env, before, r);
      var n := |Reads(before)|;
      ReadsMore(env, run);
      assert r[n] == Reads(run)[n];
      TellsStep(r, n, Last(before).scan);
      RoundScan(env, Last(before), how, b);
  }

  lemma ReadsMore(env: Env, run: Run)
    requires IsRun(env, run) && run.Then?
    ensures var a := Last(run.before);
            a.index < |a.tokens| && Reads(run) == Reads(run.before) + [a.tokens[a.index].lex.kind]
  {
    hide Effect, ExpandsTo, Settled;
  }

  // ----- what a round does -----

  /** Which rounds do what, told from the tokens read: a directive begins with a HASH that is the first token of
      a line, and its names are expanded except where they are taken literally; text is dropped where it is
      skipped, and expanded otherwise. */
  lemma RoundExactly(env: Env, run: Run)
    requires IsRun(env, run) && run.Then?
    ensures var a, r, n := Last(run.before), Reads(run), |Reads(run.before)|;
            a.index < |a.tokens| && n < |r| &&
            var t := a.tokens[a.index];
            var inside := Inside(r, n) || (t.Is(Hash) && LineBegins(r, n));
            var dropped := !inside && (t.Is(Eol) || a.levels.skip != 0);
            var expanded := t.Is(Name) && t.lex.text in a.defs && !Settled(a.tokens, a.index, a.defs)
                            && !dropped && !(inside && Literal(r, n));
            && (run.how.Dropped? <==> dropped)
            && (run.how.Expanded? <==> expanded)
            && (run.how.Executed? <==> inside && t.Is(Eol))
            && (run.how.Moved? <==> inside && !t.Is(Eol) && !expanded)
            && (run.how.Advanced? <==> !inside && !dropped && !expanded)
  {
    var a, r, n := Last(run.before), Reads(run), |Reads(run.before)|;
    ReadsMore(env, run);
    RunTells(env, run.before, r);
    TellsStep(r, n, a.scan);
    LookNames(a.scan);
    LookLineEnds(a.scan, r[n]);
    RoundOf(env, a, run.how, run.s);
  }

  lemma LookNames(s: Scan)
    ensures Look(s, Name).doExpansion == s.doExpansion
  {
  }

  lemma LookLineEnds(s: Scan, k: Kind)
    ensures Look(s, k).isEol <==> k == Eol
  {
  }

  lemma RoundOf(env: Env, a: Snap, how: How, b: Snap)
    requires Round(env, a, how, b)
    ensures match how
            case Dropped => Drops(a)
            case Expanded(_) => !Drops(a) && MayExpand(a)
            case Moved => !Drops(a) && !MayExpand(a) && Look(a.scan, a.tokens[a.index].lex.kind).doCpp
                && !Look(a.scan, a.tokens[a.index].lex.kind).isEol
            case Advanced => !Drops(a) && !MayExpand(a) && !Look(a.scan, a.tokens[a.index].lex.kind).doCpp
            case Executed(_, _) => Hands(a)
  {
    hide Effect, ExpandsTo, Settled, Drops, MayExpand, Hands, Look;
  }

  // ----- directives that take a name -----

  /** A directive is being read, and a name that comes next is taken as it is. */
  predicate TakesNames(s: Scan) {
    s.doCpp && !s.isEol && !s.doExpansion
  }

  lemma WordRound(env: Env, a: Snap, how: How, b: Snap)
    requires Round(env, a, how, b) && a.scan.doCpp && a.index + 1 < |a.tokens|
    requires Word(a.tokens[a.index].lex.kind)
    ensures Took(a, 1, b) && TakesNames(b.scan)
    ensures a.tokens[a.index].Is(Defined) ==> b.scan.skipParen
  {
    hide Effect, ExpandsTo, Settled;
  }

  lemma NameRound(env: Env, a: Snap, how: How, b: Snap)
    requires Round(env, a, how, b) && TakesNames(a.scan) && a.index + 1 < |a.tokens| && a.tokens[a.index].Is(Name)
    ensures Took(a, 1, b) && TakesNames(b.scan)
  {
    hide Effect, ExpandsTo, Settled;
  }

  lemma ParenRound(env: Env, a: Snap, how: How, b: Snap)
    requires Round(env, a, how, b) && TakesNames(a.scan) && a.index + 1 < |a.tokens|
    requires (a.tokens[a.index].Is(LParen) && a.scan.skipParen) || a.tokens[a.index].Is(RParen)
    ensures Took(a, 1, b) && (a.tokens[a.index].Is(LParen) ==> TakesNames(b.scan))
  {
    hide Effect, ExpandsTo, Settled;
  }

  lemma TwoRounds(env: Env, run: Run)
    requires IsRun(env, run) && Rounds(run) >= 2
    ensures run.Then? && run.before.Then? && IsRun(env, run.before)
    ensures Earlier(run, 2) == run.before.before && IsRun(env, run.before.before)
    ensures Rounds(run.before.before) == Rounds(run) - 2
    ensures Round(env, Last(run.before.before), run.before.how, run.before.s)
    ensures Round(env, Last(run.before), run.how, run.s)
  {
    hide Round;
    assert Earlier(run, 2) == Earlier(run.before, 1) == Earlier(run.before.before, 0);
  }

  /** After a word that takes a name, the name is taken as it is, whatever is defined. */
  lemma NameTaken(env: Env, run: Run)
    requires IsRun(env, run) && Rounds(run) >= 2
    requires var a := Last(Earlier(run, 2));
             && a.scan.doCpp && a.index + 2 < |a.tokens|
             && Word(a.tokens[a.index].lex.kind) && a.tokens[a.index + 1].Is(Name)
    ensures Took(Last(Earlier(run, 2)), 2, Last(run)) && TakesNames(Last(run).scan)
  {
    hide Round, IsRun;
    TwoRounds(env, run);
    var a, b := Last(run.before.before), Last(run.before);
    WordRound(env, a, run.before.how, b);
    assert b.tokens[b.index] == a.tokens[a.index + 1];
    NameRound(env, b, run.how, run.s);
    TookMore(a, 1, b, run.s);
  }

  /** So is the name in `defined(NAME)`. */
  lemma DefinedTaken(env: Env, run: Run)
    requires IsRun(env, run) && Rounds(run) >= 4
    requires var a := Last(Earlier(run, 4));
             && a.scan.doCpp && a.index + 4 < |a.tokens| && a.tokens[a.index].Is(Defined)
             && a.tokens[a.index + 1].Is(LParen) && a.tokens[a.index + 2].Is(Name) && a.tokens[a.index + 3].Is(RParen)
    ensures Took(Last(Earlier(run, 4)), 4, Last(run))
  {
    hide Round, IsRun, Took;
    TwoRounds(env, run);
    TwoRounds(env, run.before.before);
    var r2 := run.before.before;
    EarlierFour(run);
    var a, b, c, d := Last(r2.before.before), Last(r2.before), Last(r2), Last(run.before);
    WordRound(env, a, r2.before.how, b);
    TookAt(a, 1, b);
    ParenRound(env, b, r2.how, c);
    TookMore(a, 1, b, c);
    TookAt(a, 2, c);
    NameRound(env, c, run.before.how, d);
    TookMore(a, 2, c, d);
    TookAt(a, 3, d);
    ParenRound(env, d, run.how, run.s);
    TookMore(a, 3, d, run.s);
  }

  lemma EarlierFour(run: Run)
    requires run.Then? && run.before.Then? && run.before.before.Then? && run.before.before.before.Then?
    ensures Earlier(run, 4) == run.before.before.before.before
  {
    assert Earlier(run, 4) == Earlier(run.before, 3) == Earlier(run.before.before, 2);
    assert Earlier(run.before.before, 2) == Earlier(run.before.before.before, 1);
    assert Earlier(run.before.before.before, 1) == Earlier(run.before.before.before.before, 0);
  }

  lemma TookAt(a: Snap, n: nat, b: Snap)
    requires Took(a, n, b) && a.index + n < |a.tokens|
    ensures b.index < |b.tokens| && b.tokens[b.index] == a.tokens[a.index + n]
    ensures |b.tokens| == |a.tokens| - n && b.index == a.index
  {
  }

  /** `#ifdef NAME`, `#ifndef NAME` and `#undef NAME` reach the parser token for token, whatever is defined. */
  lemma NameReachesParser(env: Env, run: Run)
    requires IsRun(env, run) && Rounds(run) >= 3
    requires var a := Last(Earlier(run, 3));
             && LineBegins(Reads(Earlier(run, 3)), |Reads(Earlier(run, 3))|) && a.pending == []
             && a.index + 3 < |a.tokens| && a.tokens[a.index].Is(Hash)
             && Word(a.tokens[a.index + 1].lex.kind) && a.tokens[a.index + 2].Is(Name) && a.tokens[a.index + 3].Is(Eol)
    ensures var a, b := Last(Earlier(run, 3)), Last(run);
            && b.index < |b.tokens| && Hands(b)
            && b.pending + [b.tokens[b.index]] == a.tokens[a.index..a.index + 4] && b.defs == a.defs
  {
    hide Round, IsRun, Took, Hands;
    TwoRounds(env, run);
    var r1 := run.before.before;
    EarlierThree(env, run);
    var a, b, c := Last(r1.before), Last(r1), Last(run.before);
    LineAt(env, r1.before);
    HashRound(env, a, r1.how, b);
    TookAt(a, 1, b);
    WordRound(env, b, run.before.how, c);
    TookMore(a, 1, b, c);
    TookAt(a, 2, c);
    NameRound(env, c, run.how, run.s);
    TookMore(a, 2, c, run.s);
    TookAt(a, 3, run.s);
    HandsTaken(a, 3, run.s);
  }

  lemma EarlierThree(env: Env, run: Run)
    requires IsRun(env, run) && Rounds(run) >= 3
    ensures run.Then? && run.before.Then? && run.before.before.Then?
    ensures var r1 := run.before.before;
            Earlier(run, 3) == r1.before && IsRun(env, r1.before) && Round(env, Last(r1.before), r1.how, r1.s)
  {
    hide Round;
    TwoRounds(env, run);
    var r1 := run.before.before;
    assert r1.Then? && IsRun(env, r1);
    assert Earlier(run, 3) == Earlier(run.before, 2) == Earlier(run.before.before, 1);
    assert Earlier(run.before.before, 1) == Earlier(run.before.before.before, 0);
  }

  lemma LineAt(env: Env, run: Run)
    requires IsRun(env, run)
    ensures Last(run).scan.isEol <==> LineBegins(Reads(run), |Reads(run)|)
  {
    RunTells(env, run, Reads(run));
  }

  lemma HandsTaken(a: Snap, n: nat, b: Snap)
    requires Took(a, n, b) && a.pending == [] && a.index + n < |a.tokens| && a.tokens[a.index + n].Is(Eol)
    ensures b.index < |b.tokens| && Hands(b) && b.pending + [b.tokens[b.index]] == a.tokens[a.index..a.index + n + 1]
    ensures b.defs == a.defs
  {
    hide Settled;
    TookAt(a, n, b);
    assert a.tokens[a.index..a.index + n] + [a.tokens[a.index + n]] == a.tokens[a.index..a.index + n + 1];
  }

  // ----- what a directive leaves in the stream -----

  /** What executing a directive puts before its line end: what the run over a file left of it, unless the parser
      rejected a directive in that file. */
  function Inserted(sub: Option<Run>): seq<Token> {
    if sub.Some? && Last(sub.value).index >= |Last(sub.value).tokens| then Last(sub.value).tokens else []
  }

  /** A directive changes nothing else of the stream; a file that is found is run over from its beginning, on the
      macros and levels of the moment. */
  lemma ExecutedLeaves(env: Env, run: Run)
    requires IsRun(env, run) && run.Then? && run.how.Executed?
    ensures var a, b, sub := Last(run.before), Last(run), run.how.sub;
            && a.index < |a.tokens| && b.tokens == a.tokens[..a.index] + Inserted(sub) + a.tokens[a.index..]
            && b.index == a.index + |Inserted(sub)| && b.pending == []
            && (sub.Some? <==> run.how.d.IncludeFile? && a.levels.skip == 0
                               && env.open(a.clock + 2, run.how.d.file).Scanned?)
            && (sub.Some? ==>
                  && IsRun(env, sub.value) && First(sub.value).defs == a.defs && First(sub.value).levels == a.levels
                  && First(sub.value).tokens
                     == Stage.Result(Allocate(env.open(a.clock + 2, run.how.d.file).ls, a.next),
                                     a.next + |env.open(a.clock + 2, run.how.d.file).ls|))
  {
    hide Effect, Round, IsRun, Start, Inserted, Stage.Result;
    var a, how, b := Last(run.before), run.how, run.s;
    RoundLast(env, run);
    HandedAt(env, a, how, b);
    EffectLeaves(env, how.d, a.(clock := a.clock + 1), how.sub, b.(pending := a.pending, scan := a.scan));
    if how.sub.Some? {
      StartsWith(env.open(a.clock + 2, how.d.file).ls, a.(clock := a.clock + 2));
    }
  }

  lemma RoundLast(env: Env, run: Run)
    requires IsRun(env, run) && run.Then?
    ensures Round(env, Last(run.before), run.how, run.s)
  {
    hide Round;
  }

  lemma HandedAt(env: Env, a: Snap, how: How, b: Snap)
    requires Round(env, a, how, b) && how.Executed?
    ensures a.index < |a.tokens| && b.pending == []
    ensures Effect(env, how.d, a.(clock := a.clock + 1), how.sub, b.(pending := a.pending, scan := a.scan))
  {
    hide Effect, Hands;
  }

  lemma EffectLeaves(env: Env, d: Directive, a: Snap, sub: Option<Run>, b: Snap)
    requires a.index <= |a.tokens| && Effect(env, d, a, sub, b)
    ensures var put := Inserted(sub);
            b.tokens == a.tokens[..a.index] + put + a.tokens[a.index..] && b.index == a.index + |put|
    ensures sub.Some? <==> d.IncludeFile? && a.levels.skip == 0 && env.open(a.clock + 1, d.file).Scanned?
    ensures sub.Some? ==> IsRun(env, sub.value) && First(sub.value) == Start(env.open(a.clock + 1, d.file).ls,
                                                                            a.(clock := a.clock + 1))
  {
    hide IsRun, Rejected, Start, Conditionals.Exec;
    assert a.tokens == a.tokens[..a.index] + [] + a.tokens[a.index..];
    if d.IncludeFile? && a.levels.skip == 0 && env.open(a.clock + 1, d.file).Scanned? {
      InclusionEnters(env, d.file, a, sub, b);
      EntersRun(env, d.file, a, sub.value);
    }
  }
}
