/** `#` and `##` in a replacement list (psi_cpp_tokiter_expand_tokens). */
module Pasting {
  import opened Tokens

  /** The replacement tokens built so far and the two pending operators. */
  datatype Build = Build(out: seq<Token>, next: nat, paste: bool, stringify: bool)

  predicate Kept(k: Kind) {
    k != Eol && k != Hash && k != Paste
  }

  /** Two tokens glued together: always a NAME. */
  function Merged(last: Lexeme, tok: Lexeme, target: Lexeme): Lexeme {
    Relocate(Lexeme(Name, last.text + tok.text, 0, 0, ""), target)
  }

  function Copied(tok: Lexeme, stringify: bool, target: Lexeme): Lexeme {
    Relocate(Lexeme(if stringify then QuotedString else tok.kind, tok.text, 0, 0, ""), target)
  }

  /** One allocation for an empty positioned token, one for the concatenation. */
  function Glue(b: Build, tok: Lexeme, target: Lexeme): Build
    requires b.out != []
  {
    var n := |b.out|;
    Build(b.out[..n - 1] + [Token(b.next + 1, Merged(b.out[n - 1].lex, tok, target))], b.next + 2, false, false)
  }

  function Append(b: Build, tok: Lexeme, target: Lexeme): Build {
    Build(b.out + [Token(b.next, Copied(tok, b.stringify, target))], b.next + 1, false, false)
  }

  function Step(b: Build, tok: Lexeme, target: Lexeme): Build {
    if tok.kind == Eol then b
    else if tok.kind == Hash then b.(stringify := true)
    else if tok.kind == Paste then b.(paste := true)
    else if b.paste && b.out != [] then Glue(b, tok, target)
    else Append(b, tok, target)
  }

  /** The state of the loop after the first `i` replacement tokens. */
  function BuildUpTo(toks: seq<Lexeme>, i: nat, target: Lexeme, next: nat): (b: Build)
    requires i <= |toks|
    ensures |b.out| <= i
  {
    if i == 0 then Build([], next, false, false)
    else Step(BuildUpTo(toks, i - 1, target, next), toks[i - 1], target)
  }

  lemma BuildUnfold(toks: seq<Lexeme>, i: nat, target: Lexeme, next: nat)
    requires i <= |toks|
    ensures i == 0 ==> BuildUpTo(toks, i, target, next) == Build([], next, false, false)
    ensures i > 0 ==>
              BuildUpTo(toks, i, target, next) == Step(BuildUpTo(toks, i - 1, target, next), toks[i - 1], target)
  {
  }

  function ExpandTokens(toks: seq<Lexeme>, target: Lexeme, next: nat): Build {
    BuildUpTo(toks, |toks|, target, next)
  }

  /** The built tokens are new, pairwise different, and no operators or line ends. */
  ghost predicate FreshTokens(b: Build, next: nat) {
    && next <= b.next
    && (forall j :: 0 <= j < |b.out| ==> next <= b.out[j].id < b.next && Kept(b.out[j].lex.kind))
    && (forall j, k :: 0 <= j < k < |b.out| ==> b.out[j].id < b.out[k].id)
  }

  lemma {:induction false} BuildIsFresh(toks: seq<Lexeme>, i: nat, target: Lexeme, next: nat)
    requires i <= |toks|
    ensures FreshTokens(BuildUpTo(toks, i, target, next), next)
  {
    if i > 0 {
      BuildIsFresh(toks, i - 1, target, next);
    }
  }

  // ----- the reference: look back from a token to the previous kept one -----

  /** An operator of kind `op` stands between the last kept token before `i` and `i`. */
  predicate Pending(toks: seq<Lexeme>, i: nat, op: Kind)
    requires i <= |toks|
  {
    i > 0 && (toks[i - 1].kind == op || (!Kept(toks[i - 1].kind) && Pending(toks, i - 1, op)))
  }

  predicate SomeKept(toks: seq<Lexeme>, i: nat)
    requires i <= |toks|
  {
    exists k :: 0 <= k < i && Kept(toks[k].kind)
  }

  /** Token `i` is merged into the kept token before it. */
  predicate Glued(toks: seq<Lexeme>, i: nat)
    requires i < |toks|
  {
    Kept(toks[i].kind) && Pending(toks, i, Paste) && SomeKept(toks, i)
  }

  predicate Starts(toks: seq<Lexeme>, i: nat)
    requires i < |toks|
  {
    Kept(toks[i].kind) && !Glued(toks, i)
  }

  function CountKept(toks: seq<Lexeme>, i: nat): nat
    requires i <= |toks|
  {
    if i == 0 then 0 else CountKept(toks, i - 1) + if Kept(toks[i - 1].kind) then 1 else 0
  }

  function CountGlued(toks: seq<Lexeme>, i: nat): nat
    requires i <= |toks|
  {
    if i == 0 then 0 else CountGlued(toks, i - 1) + if Glued(toks, i - 1) then 1 else 0
  }

  /** The output slot of kept token `i`: how many tokens start a slot up to it, less one. */
  function CountStarts(toks: seq<Lexeme>, i: nat): nat
    requires i <= |toks|
  {
    if i == 0 then 0 else CountStarts(toks, i - 1) + if Starts(toks, i - 1) then 1 else 0
  }

  /** The concatenated texts of the kept tokens that land in output slot `s`. */
  function SlotText(toks: seq<Lexeme>, i: nat, s: int): string
    requires i <= |toks|
  {
    if i == 0 then ""
    else SlotText(toks, i - 1, s) +
         if Kept(toks[i - 1].kind) && CountStarts(toks, i) - 1 == s then toks[i - 1].text else ""
  }

  /** The type of output slot `s`: NAME as soon as a second token is merged into it. */
  function SlotKind(toks: seq<Lexeme>, i: nat, s: int): Kind
    requires i <= |toks|
  {
    if i == 0 then Eol
    else if Kept(toks[i - 1].kind) && CountStarts(toks, i) - 1 == s then
      if Glued(toks, i - 1) then Name
      else if Pending(toks, i - 1, Hash) then QuotedString
      else toks[i - 1].kind
    else SlotKind(toks, i - 1, s)
  }

  function KeptText(toks: seq<Lexeme>, i: nat): string
    requires i <= |toks|
  {
    if i == 0 then "" else KeptText(toks, i - 1) + if Kept(toks[i - 1].kind) then toks[i - 1].text else ""
  }

  function Text(ts: seq<Token>): string {
    if ts == [] then "" else Text(ts[..|ts| - 1]) + ts[|ts| - 1].lex.text
  }

  ghost predicate Matches(b: Build, toks: seq<Lexeme>, i: nat, target: Lexeme)
    requires i <= |toks|
  {
    && b.paste == Pending(toks, i, Paste)
    && b.stringify == Pending(toks, i, Hash)
    && |b.out| == CountStarts(toks, i)
    && (|b.out| > 0 <==> SomeKept(toks, i))
    && forall s :: 0 <= s < |b.out| ==>
         b.out[s].lex == Lexeme(SlotKind(toks, i, s), SlotText(toks, i, s), target.col, target.line, target.file)
  }

  lemma {:induction false} NothingBeyondSlots(toks: seq<Lexeme>, i: nat, s: int)
    requires i <= |toks| && s >= CountStarts(toks, i)
    ensures SlotText(toks, i, s) == ""
  {
    if i > 0 {
      NothingBeyondSlots(toks, i - 1, s);
    }
  }

  lemma {:induction false} SomeKeptStep(toks: seq<Lexeme>, i: nat)
    requires 0 < i <= |toks|
    ensures SomeKept(toks, i) <==> SomeKept(toks, i - 1) || Kept(toks[i - 1].kind)
  {
    assert Kept(toks[i - 1].kind) ==> SomeKept(toks, i);
  }

  /** One loop iteration keeps the output and the reference together. */
  lemma StepMatches(b: Build, toks: seq<Lexeme>, i: nat, target: Lexeme)
    requires i < |toks| && Matches(b, toks, i, target)
    ensures Matches(Step(b, toks[i], target), toks, i + 1, target)
  {
    hide SlotText, SlotKind, Pending, SomeKept;
    SomeKeptStep(toks, i + 1);
    PendingStep(toks, i, Paste);
    PendingStep(toks, i, Hash);
    var b', n := Step(b, toks[i], target), |b.out|;
    NothingBeyondSlots(toks, i, n);
    forall s | 0 <= s < |b'.out|
      ensures b'.out[s].lex ==
              Lexeme(SlotKind(toks, i + 1, s), SlotText(toks, i + 1, s), target.col, target.line, target.file)
    {
      SlotStep(toks, i, s);
      if s < n - 1 {
        assert b'.out[s] == b.out[s];
      }
    }
  }

  lemma PendingStep(toks: seq<Lexeme>, i: nat, op: Kind)
    requires i < |toks|
    ensures Pending(toks, i + 1, op) <==> toks[i].kind == op || (!Kept(toks[i].kind) && Pending(toks, i, op))
  {
  }

  /** What the next token does to a slot. */
  lemma SlotStep(toks: seq<Lexeme>, i: nat, s: int)
    requires i < |toks|
    ensures var t := toks[i];
            if Kept(t.kind) && CountStarts(toks, i + 1) - 1 == s then
              && SlotText(toks, i + 1, s) == SlotText(toks, i, s) + t.text
              && SlotKind(toks, i + 1, s) ==
                 (if Glued(toks, i) then Name else if Pending(toks, i, Hash) then QuotedString else t.kind)
            else SlotText(toks, i + 1, s) == SlotText(toks, i, s) && SlotKind(toks, i + 1, s) == SlotKind(toks, i, s)
  {
    hide Pending, SomeKept, CountStarts;
    assert SlotText(toks, i, s) + "" == SlotText(toks, i, s);
  }

  /** Every output token is its slot of the reference: text, type and position. */
  lemma {:induction false} ExpandMatches(toks: seq<Lexeme>, i: nat, target: Lexeme, next: nat)
    requires i <= |toks|
    ensures Matches(BuildUpTo(toks, i, target, next), toks, i, target)
  {
    if i > 0 {
      ExpandMatches(toks, i - 1, target, next);
      StepMatches(BuildUpTo(toks, i - 1, target, next), toks, i - 1, target);
    }
  }

  lemma {:induction false} TextAppend(ts: seq<Token>, t: Token)
    ensures Text(ts + [t]) == Text(ts) + t.lex.text
  {
    assert (ts + [t])[..|ts|] == ts;
  }

  /** Nothing is lost: texts are conserved and only merges shorten the list. */
  lemma {:induction false} ExpandConserves(toks: seq<Lexeme>, i: nat, target: Lexeme, next: nat)
    requires i <= |toks|
    ensures Text(BuildUpTo(toks, i, target, next).out) == KeptText(toks, i)
    ensures |BuildUpTo(toks, i, target, next).out| == CountKept(toks, i) - CountGlued(toks, i)
  {
    hide BuildUpTo, Text;
    BuildUnfold(toks, i, target, next);
    if i > 0 {
      ExpandConserves(toks, i - 1, target, next);
      ExpandMatches(toks, i - 1, target, next);
      StepText(BuildUpTo(toks, i - 1, target, next), toks[i - 1], target);
    } else {
      NoText();
    }
  }

  lemma NoText()
    ensures Text([]) == ""
  {
  }

  lemma StepText(b: Build, t: Lexeme, target: Lexeme)
    ensures Text(Step(b, t, target).out) == Text(b.out) + if Kept(t.kind) then t.text else ""
  {
    var b', n := Step(b, t, target), |b.out|;
    if !Kept(t.kind) {
    } else if b.paste && n > 0 {
      TextAppend(b.out[..n - 1], b'.out[n - 1]);
      assert b.out == b.out[..n - 1] + [b.out[n - 1]];
    } else {
      TextAppend(b.out, b'.out[n]);
    }
  }

  /** Merging types: a slot holding two or more kept tokens is a NAME. */
  lemma {:induction false} MergedIsName(toks: seq<Lexeme>, i: nat, g: nat, target: Lexeme, next: nat)
    requires g < i <= |toks| && Glued(toks, g)
    ensures var s, b := CountStarts(toks, g + 1) - 1, BuildUpTo(toks, i, target, next);
            0 <= s < |b.out| && b.out[s].lex.kind == Name
  {
    ExpandMatches(toks, i, target, next);
    ExpandMatches(toks, g, target, next);
    SlotStaysName(toks, i, g);
  }

  lemma {:induction false} SlotStaysName(toks: seq<Lexeme>, i: nat, g: nat)
    requires g < i <= |toks| && Glued(toks, g)
    ensures var s := CountStarts(toks, g + 1) - 1;
            s < CountStarts(toks, i) && SlotKind(toks, i, s) == Name
  {
    if g < i - 1 {
      SlotStaysName(toks, i - 1, g);
    }
  }

  predicate WithoutOperators(toks: seq<Lexeme>) {
    forall k :: 0 <= k < |toks| ==> Kept(toks[k].kind)
  }

  /** The first `i` of `toks`, copied. */
  predicate CopiedUpTo(b: Build, toks: seq<Lexeme>, i: nat, target: Lexeme)
    requires i <= |toks|
  {
    && !b.paste && !b.stringify && |b.out| == i
    && forall k :: 0 <= k < i ==> b.out[k].lex == Relocate(toks[k], target)
  }

  /** A replacement list without operators is copied token by token. */
  lemma {:induction false} PlainBody(toks: seq<Lexeme>, i: nat, target: Lexeme, next: nat)
    requires i <= |toks| && WithoutOperators(toks)
    ensures CopiedUpTo(BuildUpTo(toks, i, target, next), toks, i, target)
  {
    if i > 0 {
      PlainBody(toks, i - 1, target, next);
    }
  }
}
