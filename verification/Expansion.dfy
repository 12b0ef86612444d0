/** What repeated expansion of object-like macros leaves of directive-free text. */
module Expansion {
  import opened Tokens
  import opened Pasting
  import opened MacroCalls

  /** The macro table (`cpp->defs`). */
  type Defs = map<string, Macro>

  /** `text` names a macro that is replaced; a macro that is just its own name is not. */
  predicate Expands(defs: Defs, text: string) {
    text in defs && !(|defs[text].body| == 1 && defs[text].body[0].lex.text == text)
  }

  /** The replacement of a token: the macro's tokens, placed where the token stood. */
  function Replacement(defs: Defs, l: Lexeme): (ls: seq<Lexeme>)
    requires Expands(defs, l.text)
    ensures |ls| == |defs[l.text].body|
  {
    var body := defs[l.text].body;
    seq(|body|, i requires 0 <= i < |body| => Relocate(body[i].lex, l))
  }

  /** Object-like macros whose bodies have no operators and no line ends. */
  ghost predicate Plain(defs: Defs) {
    && (forall n :: n in defs ==> defs[n].sig.None?)
    && (forall n, k :: n in defs && 0 <= k < |defs[n].body| ==> Kept(defs[n].body[k].lex.kind))
  }

  /** Some of the macros of a table, and with them all that their bodies mention. */
  ghost predicate Part(defs: Defs, use: Defs) {
    && (forall n :: n in use ==> n in defs && defs[n] == use[n])
    && (forall n, k :: n in use && 0 <= k < |use[n].body| && use[n].body[k].lex.text in defs ==>
          use[n].body[k].lex.text in use)
  }

  /** Plain macros, ranked so that bodies mention only lower names. */
  ghost predicate Ranked(defs: Defs, rank: string -> nat) {
    && Plain(defs)
    && (forall n, k :: Expands(defs, n) && 0 <= k < |defs[n].body| && Expands(defs, defs[n].body[k].lex.text) ==>
          rank(defs[n].body[k].lex.text) < rank(n))
  }

  // ----- the weight of what is still to be scanned -----

  ghost function Weight(defs: Defs, rank: string -> nat, text: string): (w: nat)
    ensures w >= 1
    decreases rank(text), 0
  {
    if Expands(defs, text) then 1 + BodyWeight(defs, rank, text, |defs[text].body|) else 1
  }

  ghost function BodyWeight(defs: Defs, rank: string -> nat, text: string, i: nat): nat
    requires text in defs && i <= |defs[text].body|
    decreases rank(text), 0, i
  {
    if i == 0 then 0
    else
      var t := defs[text].body[i - 1].lex.text;
      BodyWeight(defs, rank, text, i - 1) + if rank(t) < rank(text) then Weight(defs, rank, t) else 1
  }

  ghost function TextWeight(defs: Defs, rank: string -> nat, ls: seq<Lexeme>): (w: nat)
    ensures w >= |ls|
  {
    if ls == [] then 0 else Weight(defs, rank, ls[0].text) + TextWeight(defs, rank, ls[1..])
  }

  lemma {:induction false} TextWeightConcat(defs: Defs, rank: string -> nat, a: seq<Lexeme>, b: seq<Lexeme>)
    ensures TextWeight(defs, rank, a + b) == TextWeight(defs, rank, a) + TextWeight(defs, rank, b)
  {
    if a == [] {
      assert a + b == b;
    } else {
      TextWeightConcat(defs, rank, a[1..], b);
      assert (a + b)[1..] == a[1..] + b;
    }
  }

  lemma {:induction false} PrefixWeight(defs: Defs, rank: string -> nat, l: Lexeme, i: nat)
    requires Ranked(defs, rank) && Expands(defs, l.text) && i <= |defs[l.text].body|
    ensures TextWeight(defs, rank, Replacement(defs, l)[..i]) == BodyWeight(defs, rank, l.text, i)
  {
    if i > 0 {
      PrefixWeight(defs, rank, l, i - 1);
      var r := Replacement(defs, l);
      assert r[..i] == r[..i - 1] + [r[i - 1]];
      TextWeightConcat(defs, rank, r[..i - 1], [r[i - 1]]);
      assert [r[i - 1]][1..] == [];
    }
  }

  /** Replacing a token by its replacement list loses exactly one unit of weight. */
  lemma ReplacementWeight(defs: Defs, rank: string -> nat, l: Lexeme)
    requires Ranked(defs, rank) && Expands(defs, l.text)
    ensures TextWeight(defs, rank, Replacement(defs, l)) == Weight(defs, rank, l.text) - 1
  {
    var r := Replacement(defs, l);
    PrefixWeight(defs, rank, l, |r|);
    assert r[..|r|] == r;
  }

  // ----- the scan -----

  /** Whether the scan replaces `l`. At the place of a replacement just made (`head`) it looks
      at the text alone, elsewhere only at NAME tokens. */
  predicate Replaces(defs: Defs, l: Lexeme, head: bool) {
    (head || l.kind == Name) && Expands(defs, l.text)
  }

  /** What the expand-then-advance loop leaves of the text `ls`. */
  ghost function Rewrite(defs: Defs, rank: string -> nat, ls: seq<Lexeme>, head: bool): seq<Lexeme>
    requires Ranked(defs, rank)
    decreases TextWeight(defs, rank, ls)
  {
    if ls == [] then []
    else if Replaces(defs, ls[0], head) then
      ReplacementWeight(defs, rank, ls[0]);
      TextWeightConcat(defs, rank, Replacement(defs, ls[0]), ls[1..]);
      Rewrite(defs, rank, Replacement(defs, ls[0]) + ls[1..], true)
    else if ls[0].kind == Eol then Rewrite(defs, rank, ls[1..], false)
    else [ls[0]] + Rewrite(defs, rank, ls[1..], false)
  }

  // ----- the reference: every token is expanded by itself, all the way down -----

  ghost function FullExpansion(defs: Defs, rank: string -> nat, l: Lexeme): seq<Lexeme>
    requires Ranked(defs, rank)
    decreases Weight(defs, rank, l.text), 0
  {
    if l.kind == Eol then []
    else if Expands(defs, l.text) then
      ReplacementWeight(defs, rank, l);
      FullText(defs, rank, Replacement(defs, l))
    else [l]
  }

  ghost function FullText(defs: Defs, rank: string -> nat, ls: seq<Lexeme>): seq<Lexeme>
    requires Ranked(defs, rank)
    decreases TextWeight(defs, rank, ls), 1
  {
    if ls == [] then []
    else FullExpansion(defs, rank, ls[0]) + FullText(defs, rank, ls[1..])
  }

  lemma {:induction false} FullTextConcat(defs: Defs, rank: string -> nat, a: seq<Lexeme>, b: seq<Lexeme>)
    requires Ranked(defs, rank)
    ensures FullText(defs, rank, a + b) == FullText(defs, rank, a) + FullText(defs, rank, b)
    decreases |a|
  {
    if a == [] {
      assert a + b == b;
    } else {
      hide Ranked, FullExpansion;
      FullTextConcat(defs, rank, a[1..], b);
      assert (a + b)[1..] == a[1..] + b;
    }
  }

  /** Every token spelled like an expanding macro is a NAME. */
  ghost predicate NamesOnly(defs: Defs, ls: seq<Lexeme>) {
    forall k :: 0 <= k < |ls| && Expands(defs, ls[k].text) ==> ls[k].kind == Name
  }

  ghost predicate BodiesNamesOnly(defs: Defs) {
    forall n, k :: n in defs && 0 <= k < |defs[n].body| && Expands(defs, defs[n].body[k].lex.text) ==>
      defs[n].body[k].lex.kind == Name
  }

  /** The scan, which looks only at what is under its cursor, computes the full expansion. */
  lemma {:induction false} RewriteIsFullExpansion(defs: Defs, rank: string -> nat, ls: seq<Lexeme>, head: bool)
    requires Ranked(defs, rank) && NamesOnly(defs, ls) && BodiesNamesOnly(defs)
    ensures Rewrite(defs, rank, ls, head) == FullText(defs, rank, ls)
    decreases TextWeight(defs, rank, ls)
  {
    if ls != [] {
      var l := ls[0];
      if Replaces(defs, l, head) {
        var r := Replacement(defs, l);
        ReplacementWeight(defs, rank, l);
        TextWeightConcat(defs, rank, r, ls[1..]);
        RewriteIsFullExpansion(defs, rank, r + ls[1..], true);
        FullTextConcat(defs, rank, r, ls[1..]);
      } else {
        RewriteIsFullExpansion(defs, rank, ls[1..], false);
      }
    }
  }

  /** `out` is what the loop leaves of `ls`: the full expansion of each token, if what is spelled like a
      macro that expands is a NAME. */
  ghost predicate FullyExpanded(defs: Defs, rank: string -> nat, ls: seq<Lexeme>, out: seq<Lexeme>) {
    && Ranked(defs, rank) && out == Rewrite(defs, rank, ls, false)
    && (NamesOnly(defs, ls) && BodiesNamesOnly(defs) ==> out == FullText(defs, rank, ls))
  }

  lemma RewriteFullyExpands(defs: Defs, rank: string -> nat, ls: seq<Lexeme>)
    requires Ranked(defs, rank)
    ensures FullyExpanded(defs, rank, ls, Rewrite(defs, rank, ls, false))
  {
    if NamesOnly(defs, ls) && BodiesNamesOnly(defs) {
      RewriteIsFullExpansion(defs, rank, ls, false);
    }
  }

  /** Nothing expandable and no line end is left. */
  lemma {:induction false} RewriteIsNormal(defs: Defs, rank: string -> nat, ls: seq<Lexeme>, head: bool)
    requires Ranked(defs, rank)
    ensures forall k :: 0 <= k < |Rewrite(defs, rank, ls, head)| ==>
              var l := Rewrite(defs, rank, ls, head)[k]; l.kind != Eol && !Replaces(defs, l, false)
    decreases TextWeight(defs, rank, ls)
  {
    if ls != [] {
      if Replaces(defs, ls[0], head) {
        ReplacementWeight(defs, rank, ls[0]);
        TextWeightConcat(defs, rank, Replacement(defs, ls[0]), ls[1..]);
        RewriteIsNormal(defs, rank, Replacement(defs, ls[0]) + ls[1..], true);
      } else {
        RewriteIsNormal(defs, rank, ls[1..], false);
      }
    }
  }

  /** A macro whose body is just its own name stays put, wherever it occurs. */
  lemma {:induction false} SelfNamedStays(defs: Defs, rank: string -> nat, ls: seq<Lexeme>, k: nat, head: bool)
    requires Ranked(defs, rank) && k < |ls| && ls[k].kind != Eol
    requires ls[k].text in defs && |defs[ls[k].text].body| == 1 && defs[ls[k].text].body[0].lex.text == ls[k].text
    ensures ls[k] in Rewrite(defs, rank, ls, head)
    decreases TextWeight(defs, rank, ls)
  {
    if Replaces(defs, ls[0], head) {
      var r := Replacement(defs, ls[0]);
      ReplacementWeight(defs, rank, ls[0]);
      TextWeightConcat(defs, rank, r, ls[1..]);
      assert (r + ls[1..])[|r| + k - 1] == ls[k];
      SelfNamedStays(defs, rank, r + ls[1..], |r| + k - 1, true);
    } else if k > 0 {
      SelfNamedStays(defs, rank, ls[1..], k - 1, false);
    }
  }

  // ----- ranking is exactly what termination on every text needs -----

  /** The scan of `ls` ends within `n` steps, whatever the macros are. */
  ghost predicate Ends(defs: Defs, ls: seq<Lexeme>, head: bool, n: nat)
    decreases n
  {
    ls == [] || (n > 0 && if Replaces(defs, ls[0], head) then Ends(defs, Replacement(defs, ls[0]) + ls[1..], true,
        n - 1)
                          else Ends(defs, ls[1..], false, n - 1))
  }

  lemma {:induction false} RankedEnds(defs: Defs, rank: string -> nat, ls: seq<Lexeme>, head: bool)
    requires Ranked(defs, rank)
    ensures Ends(defs, ls, head, TextWeight(defs, rank, ls))
    decreases TextWeight(defs, rank, ls)
  {
    hide Ranked, Weight, BodyWeight, Replacement;
    if ls != [] {
      if Replaces(defs, ls[0], head) {
        var r := Replacement(defs, ls[0]);
        ReplacementWeight(defs, rank, ls[0]);
        TextWeightConcat(defs, rank, r, ls[1..]);
        RankedEnds(defs, rank, r + ls[1..], true);
      } else {
        RankedEnds(defs, rank, ls[1..], false);
        EndsLater(defs, ls[1..], false, TextWeight(defs, rank, ls[1..]), TextWeight(defs, rank, ls) - 1);
      }
    }
  }

  lemma {:induction false} EndsLater(defs: Defs, ls: seq<Lexeme>, head: bool, n: nat, m: nat)
    requires n <= m && Ends(defs, ls, head, n)
    ensures Ends(defs, ls, head, m)
    decreases n
  {
    if ls != [] {
      if Replaces(defs, ls[0], head) {
        EndsLater(defs, Replacement(defs, ls[0]) + ls[1..], true, n - 1, m - 1);
      } else {
        EndsLater(defs, ls[1..], false, n - 1, m - 1);
      }
    }
  }

  /** Macros that a text cannot reach do not matter to its scan. */
  lemma {:induction false} EndsWithin(defs: Defs, use: Defs, ls: seq<Lexeme>, head: bool, n: nat)
    requires Part(defs, use) && forall l :: l in ls && l.text in defs ==> l.text in use
    ensures Ends(defs, ls, head, n) <==> Ends(use, ls, head, n)
    decreases n
  {
    if ls != [] && n > 0 {
      assert ls[0] in ls && (Expands(defs, ls[0].text) <==> Expands(use, ls[0].text));
      if Replaces(defs, ls[0], head) {
        ReplacementWithin(defs, use, ls[0]);
        EndsWithin(defs, use, Replacement(use, ls[0]) + ls[1..], true, n - 1);
      } else {
        EndsWithin(defs, use, ls[1..], false, n - 1);
      }
    }
  }

  lemma ReplacementWithin(defs: Defs, use: Defs, l: Lexeme)
    requires Part(defs, use) && Expands(use, l.text)
    ensures Expands(defs, l.text) && Replacement(defs, l) == Replacement(use, l)
    ensures forall b :: b in Replacement(use, l) && b.text in defs ==> b.text in use
  {
    var r := Replacement(use, l);
    forall b | b in r ensures b.text in defs ==> b.text in use {
      var k :| 0 <= k < |r| && r[k] == b;
      assert b.text == use[l.text].body[k].lex.text;
    }
  }

  lemma {:induction false} PrefixEnds(defs: Defs, a: seq<Lexeme>, b: seq<Lexeme>, head: bool, n: nat)
    requires Ends(defs, a + b, head, n)
    ensures Ends(defs, a, head, n)
    decreases n
  {
    if a != [] {
      assert (a + b)[1..] == a[1..] + b;
      if Replaces(defs, a[0], head) {
        var r := Replacement(defs, a[0]);
        assert r + (a[1..] + b) == (r + a[1..]) + b;
        PrefixEnds(defs, r + a[1..], b, true, n - 1);
      } else {
        PrefixEnds(defs, a[1..], b, false, n - 1);
      }
    }
  }

  /** A run over a text contains a run over each of its names. */
  lemma {:induction false} MemberEnds(defs: Defs, ls: seq<Lexeme>, head: bool, k: nat, n: nat)
    requires Ends(defs, ls, head, n) && k < |ls| && ls[k].kind == Name
    ensures Ends(defs, [ls[k]], false, n)
    decreases n
  {
    if k == 0 {
      assert ls == [ls[0]] + ls[1..];
      PrefixEnds(defs, [ls[0]], ls[1..], head, n);
    } else if Replaces(defs, ls[0], head) {
      var r := Replacement(defs, ls[0]);
      assert (r + ls[1..])[|r| + k - 1] == ls[k];
      MemberEnds(defs, r + ls[1..], true, |r| + k - 1, n - 1);
      EndsLater(defs, [ls[k]], false, n - 1, n);
    } else {
      MemberEnds(defs, ls[1..], false, k - 1, n - 1);
      EndsLater(defs, [ls[k]], false, n - 1, n);
    }
  }

  function NameOf(text: string): Lexeme {
    Lexeme(Name, text, 0, 0, "")
  }

  /** Positions do not matter to the scan. */
  lemma {:induction false} EndsAnywhere(defs: Defs, a: seq<Lexeme>, b: seq<Lexeme>, head: bool, n: nat)
    requires |a| == |b| && (forall k :: 0 <= k < |a| ==> a[k].kind == b[k].kind && a[k].text == b[k].text)
    requires Ends(defs, a, head, n)
    ensures Ends(defs, b, head, n)
    decreases n
  {
    if a != [] {
      if Replaces(defs, a[0], head) {
        EndsAnywhere(defs, Replacement(defs, a[0]) + a[1..], Replacement(defs, b[0]) + b[1..], true, n - 1);
      } else {
        EndsAnywhere(defs, a[1..], b[1..], false, n - 1);
      }
    }
  }

  ghost predicate NameEnds(defs: Defs, text: string, n: nat) {
    Ends(defs, [NameOf(text)], false, n)
  }

  /** The least number of steps in which the scan of a name ends. */
  ghost function LeastSteps(defs: Defs, text: string, n: nat): (m: nat)
    requires NameEnds(defs, text, n)
    ensures m <= n && NameEnds(defs, text, m)
    ensures forall k :: NameEnds(defs, text, k) ==> m <= k
    decreases n
  {
    if k: nat :| k < n && NameEnds(defs, text, k) then LeastSteps(defs, text, k) else n
  }

  ghost predicate Halts(defs: Defs, text: string) {
    exists n :: NameEnds(defs, text, n)
  }

  ghost predicate EveryNameEnds(defs: Defs) {
    forall text :: Halts(defs, text)
  }

  /** The scan of `ls` goes on for ever. */
  ghost predicate Diverges(defs: Defs, ls: seq<Lexeme>, head: bool) {
    forall n :: !Ends(defs, ls, head, n)
  }

  ghost predicate EveryTextEnds(defs: Defs) {
    forall ls, head :: !Diverges(defs, ls, head)
  }

  ghost function StepRank(defs: Defs, text: string): (m: nat)
    requires EveryNameEnds(defs)
    ensures NameEnds(defs, text, m) && forall k :: NameEnds(defs, text, k) ==> m <= k
  {
    assert Halts(defs, text);
    var n :| NameEnds(defs, text, n);
    LeastSteps(defs, text, n)
  }

  lemma StepRankDrops(defs: Defs, text: string, k: nat)
    requires EveryNameEnds(defs) && BodiesNamesOnly(defs)
    requires Expands(defs, text) && k < |defs[text].body| && Expands(defs, defs[text].body[k].lex.text)
    ensures StepRank(defs, defs[text].body[k].lex.text) < StepRank(defs, text)
  {
    var n, l := StepRank(defs, text), NameOf(text);
    var r := Replacement(defs, l);
    assert r + [l][1..] == r;
    assert Ends(defs, r, true, n - 1);
    MemberEnds(defs, r, true, k, n - 1);
    EndsAnywhere(defs, [r[k]], [NameOf(r[k].text)], false, n - 1);
    assert NameEnds(defs, r[k].text, n - 1);
  }

  /** The scan of every text ends if and only if the macros can be ranked; if they cannot, that of some
      single name goes on for ever. */
  lemma EndsIffRanked(defs: Defs) returns (rank: string -> nat)
    requires Plain(defs) && BodiesNamesOnly(defs)
    ensures EveryTextEnds(defs) <==> exists r :: Ranked(defs, r)
    ensures EveryTextEnds(defs) <==> forall text :: !Diverges(defs, [NameOf(text)], false)
    ensures EveryTextEnds(defs) ==> Ranked(defs, rank)
  {
    rank := NamesEndIffRanked(defs);
    forall text ensures Halts(defs, text) <==> !Diverges(defs, [NameOf(text)], false) {
      if n: nat :| Ends(defs, [NameOf(text)], false, n) {
        assert NameEnds(defs, text, n);
      }
      if n :| NameEnds(defs, text, n) {
        assert Ends(defs, [NameOf(text)], false, n);
      }
    }
    if EveryNameEnds(defs) {
      forall ls, head ensures !Diverges(defs, ls, head) {
        RankedEnds(defs, rank, ls, head);
      }
    }
  }

  lemma NamesEndIffRanked(defs: Defs) returns (rank: string -> nat)
    requires Plain(defs) && BodiesNamesOnly(defs)
    ensures EveryNameEnds(defs) <==> exists r :: Ranked(defs, r)
    ensures EveryNameEnds(defs) ==> Ranked(defs, rank)
  {
    rank := (_: string) => 0;
    if EveryNameEnds(defs) {
      rank := (text: string) => StepRank(defs, text);
      forall n, k | Expands(defs, n) && 0 <= k < |defs[n].body| && Expands(defs, defs[n].body[k].lex.text)
        ensures rank(defs[n].body[k].lex.text) < rank(n)
      {
        StepRankDrops(defs, n, k);
      }
      assert Ranked(defs, rank);
    }
    if r :| Ranked(defs, r) {
      forall text
        ensures Halts(defs, text)
      {
        RankedEnds(defs, r, [NameOf(text)], false);
        assert NameEnds(defs, text, TextWeight(defs, r, [NameOf(text)]));
      }
    }
  }
}
