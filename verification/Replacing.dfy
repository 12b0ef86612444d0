/** One expansion at the cursor: what it does to the stream and to the allocated tokens. */
module Replacing {
  import opened Options
  import opened Tokens
  import opened MacroCalls
  import opened Expansion
  import opened Ownership
  import Pasting
  import Lists

  /** Outcome of one expansion attempt. `Broken`: the source leaves defined behaviour. */
  datatype Expanded = Unchanged | Replacing | Broken

  /** The macro that `expand` applies to the token at the cursor, if any. */
  function MacroAt(ts: seq<Token>, i: nat, defs: Defs): Option<Macro> {
    if i < |ts| && ts[i].lex.text in defs && defs[ts[i].lex.text].token.id != ts[i].id
    then Some(defs[ts[i].lex.text]) else None
  }

  /** Where the source reads or writes out of bounds: a function-like macro without parameters,
      a name that ends the stream, an argument that does not fit. */
  predicate Undefined(ts: seq<Token>, i: nat, defs: Defs) {
    var m := MacroAt(ts, i, defs);
    m.Some? && m.value.sig.Some? && CallUndefined(ts, i, m.value)
  }

  predicate CallUndefined(ts: seq<Token>, i: nat, m: Macro)
    requires m.sig.Some?
  {
    var sig := m.sig.value;
    || sig == []
    || i + 1 >= |ts|
    || (ReadCall(ts, i, |sig|).Some? && !Fits(m.body, sig, ReadCall(ts, i, |sig|).value.args))
  }

  /** What the expansion of a call inserts. */
  function CallTokens(m: Macro, args: seq<seq<Token>>, target: Lexeme, next: nat): Pasting.Build
    requires m.sig.Some? && |args| == |m.sig.value|
  {
    Pasting.ExpandTokens(Lexemes(Substitute(m.body, |m.body|, m.sig.value, args)), target, next)
  }

  /** psi_cpp_tokiter_expand_cmp: whether the macro's body is not just the token itself. */
  predicate ExpandCmp(t: Token, m: Macro) {
    |m.body| == 1 ==> m.body[0].lex.text != t.lex.text
  }

  /** Nothing is expanded at position `i`. */
  predicate Settled(ts: seq<Token>, i: nat, defs: Defs) {
    var m := MacroAt(ts, i, defs);
    m.None? || if m.value.sig.None? then !ExpandCmp(ts[i], m.value)
               else m.value.sig.value != [] && i + 1 < |ts| && ReadCall(ts, i, |m.value.sig.value|).None?
  }

  lemma CallBegins(ts: seq<Token>, at: nat, count: nat)
    requires count > 0 && at + 1 < |ts|
    ensures ReadCall(ts, at, count) == if ts[at + 1].Is(LParen) then ScanArgs(ts, at + 2, count, [], [], 1) else None
  {
  }

  lemma BagName(name: Token, read: seq<Token>)
    ensures Bag([name] + read) == multiset{name} + Bag(read)
  {
  }

  lemma ReplacedUnfold(ts: seq<Token>, start: nat, close: nat, rest: seq<Token>, at: nat, out: seq<Token>)
    requires start <= close < |ts| && rest == ts[..start] + ts[close + 1..]
    requires at == if start < |rest| || start == 0 then start else start - 1
    ensures at <= |rest|
    ensures Replaced(ts, start, close, out).0 == Lists.Inserted(rest, at, out)
    ensures Replaced(ts, start, close, out).1 == if start < |rest| + |out| then start else at
    ensures |Lists.Inserted(rest, at, out)| == |rest| + |out|
  {
  }

  /** Freeing the arguments and the name after the parentheses and commas frees the call, token by token. */
  lemma CallFreed(live: multiset<Token>, call: multiset<Token>, read: multiset<Token>, live': multiset<Token>,
                  args: multiset<Token>, name: Token, out: multiset<Token>)
    requires call == multiset{name} + read && call <= live && live' + read == live + args
    ensures args <= live' + out && name in live' + out - args
    ensures live' + out - args - multiset{name} == live - call + out
  {
    forall t
      ensures args[t] + multiset{name}[t] <= live'[t]
      ensures (live' + out - args - multiset{name})[t] == (live - call + out)[t]
    {
      assert (live' + read)[t] == (live + args)[t];
      assert (multiset{name} + read)[t] <= live[t];
    }
  }

  // ----- reading the arguments of a call -----

  /** The tokens up to `i` are read: `done` and `cur` are the arguments so far, `free` what is no part of any,
      and `depth` parentheses are open. */
  ghost predicate Reading(ts: seq<Token>, start: nat, i: nat, count: nat, done: seq<seq<Token>>, cur: seq<Token>,
                          free: seq<Token>, depth: nat)
    requires count > 0
  {
    && start < i < |ts| && |done| < count
    && ReadCall(ts, start, count) == (if depth > 0 then ScanArgs(ts, i + 1, count, done, cur, depth)
                                      else Some(Call(done + [cur], i)))
    && Bag(ts[start + 1..i + 1]) == Bag(free) + Bag(Flat(done)) + Bag(cur)
  }

  lemma ReadingBegins(ts: seq<Token>, start: nat, count: nat)
    requires count > 0 && start + 1 < |ts|
    ensures if ts[start + 1].Is(LParen) then Reading(ts, start, start + 1, count, [], [], [ts[start + 1]], 1)
            else ReadCall(ts, start, count).None?
  {
    hide ScanArgs;
    CallBegins(ts, start, count);
    FlatNone();
    assert ts[start + 1..start + 2] == [ts[start + 1]];
  }

  lemma ReadingGoesOn(ts: seq<Token>, start: nat, i: nat, count: nat, done: seq<seq<Token>>, cur: seq<Token>,
                      free: seq<Token>, depth: nat)
    requires count > 0 && depth > 0 && Reading(ts, start, i, count, done, cur, free, depth)
    ensures if i + 1 >= |ts| then ReadCall(ts, start, count).None?
            else var t := ts[i + 1];
              if t.Is(RParen) && depth == 1 then
                if |done| + 1 < count then ReadCall(ts, start, count).None?
                else Reading(ts, start, i + 1, count, done, cur, free + [t], 0)
              else if t.Is(Comma) && depth == 1 then
                if |done| + 1 >= count then ReadCall(ts, start, count).None?
                else Reading(ts, start, i + 1, count, done + [cur], [], free + [t], 1)
              else Reading(ts, start, i + 1, count, done, cur + [t], free, DepthAfter(t, depth))
  {
    hide ScanArgs, ReadCall, Flat, Bag;
    ScanStep(ts, i + 1, count, done, cur, depth);
    if i + 1 < |ts| {
      var t, read := ts[i + 1], ts[start + 1..i + 1];
      assert ts[start + 1..i + 2] == read + [t];
      BagSnoc(read, t);
      BagSnoc(cur, t);
      BagSnoc(free, t);
      FlatAppend(done, cur);
      BagConcat(Flat(done), cur);
      BagNone();
      OneMore(Bag(free), Bag(Flat(done)), Bag(cur), t);
      ClosedAtOne(ts, i + 1, count, done, cur, depth);
    }
  }

  lemma ClosedAtOne(ts: seq<Token>, i: nat, count: nat, done: seq<seq<Token>>, cur: seq<Token>, depth: nat)
    requires i < |ts| && depth > 0
    ensures DepthAfter(ts[i], depth) == 0 <==> ts[i].Is(RParen) && depth == 1
  {
  }

  lemma OneMore(a: multiset<Token>, b: multiset<Token>, c: multiset<Token>, t: Token)
    ensures a + b + c + multiset{t} == a + multiset{t} + b + c
    ensures a + b + c + multiset{t} == a + b + (c + multiset{t})
    ensures a + multiset{t} + (b + c) + multiset{} == a + b + c + multiset{t}
  {
  }

  lemma ReadingEnds(ts: seq<Token>, start: nat, i: nat, count: nat, done: seq<seq<Token>>, cur: seq<Token>,
                    free: seq<Token>)
    requires count > 0 && Reading(ts, start, i, count, done, cur, free, 0)
    ensures ReadCall(ts, start, count) == Some(Call(done + [cur], i))
    ensures Bag(ts[start + 1..i + 1]) == Bag(free) + Bag(Flat(done + [cur]))
  {
    hide ReadCall, Flat, Bag;
    FlatAppend(done, cur);
    BagConcat(Flat(done), cur);
    TwoParts(Bag(free), Bag(Flat(done)), Bag(cur));
  }

  lemma TwoParts(a: multiset<Token>, b: multiset<Token>, c: multiset<Token>)
    ensures a + b + c == a + (b + c)
  {
  }

  /** A macro call was replaced: the stream, and that the tokens of the call were freed. */
  ghost predicate CallReplaced(ts: seq<Token>, i: nat, live: multiset<Token>, next: nat, m: Macro,
                               ts': seq<Token>, i': nat, live': multiset<Token>, next': nat)
    requires m.sig.Some?
  {
    && m.sig.value != [] && i < |ts|
    && var call := ReadCall(ts, i, |m.sig.value|);
       && call.Some?
       && var b := CallTokens(m, call.value.args, ts[i].lex, next);
          && Fits(m.body, m.sig.value, call.value.args)
          && ts' == Replaced(ts, i, call.value.close, b.out).0
          && i' == Replaced(ts, i, call.value.close, b.out).1
          && next' == b.next
          && live' == live - Bag(ts[i..call.value.close + 1]) + Bag(b.out)
  }

  /** The tokens `out`, built from `toks`, stand where the macro name `at` stood. */
  ghost predicate BuiltFrom(out: seq<Token>, toks: seq<Lexeme>, at: Lexeme) {
    && |out| == Pasting.CountStarts(toks, |toks|)
    && forall s :: 0 <= s < |out| ==>
         out[s].lex == Lexeme(Pasting.SlotKind(toks, |toks|, s), Pasting.SlotText(toks, |toks|, s), at.col, at.line,
                              at.file)
  }

  /** What becomes of a call, from its text: it splits into arguments in one way, every body token gives its piece,
      and what is built of the pieces is put in the place of the call, unless the call ends the stream. */
  lemma CallExactly(ts: seq<Token>, i: nat, live: multiset<Token>, next: nat, m: Macro, ts': seq<Token>, i': nat,
                    live': multiset<Token>, next': nat)
    returns (call: Call, commas: seq<Token>, pieces: seq<seq<Token>>, out: seq<Token>)
    requires m.sig.Some? && CallReplaced(ts, i, live, next, m, ts', i', live', next')
    ensures m.sig.value != [] && IsCall(ts, i, |m.sig.value|, call, commas)
    ensures |pieces| == |m.body| && |call.args| == |m.sig.value|
    ensures forall k :: 0 <= k < |m.body| ==> IsPiece(m.body[k], m.sig.value, call.args, pieces[k])
    ensures i < |ts| && BuiltFrom(out, Lexemes(Flat(pieces)), ts[i].lex)
    ensures call.close + 1 < |ts| || i == 0 ==> ts' == ts[..i] + out + ts[call.close + 1..] && i' == i
  {
    hide IsPiece, BuiltFrom, Pasting.ExpandTokens, Substitute, Replaced, ReadCall, IsCall, Bag, Fits, Flat;
    var sig := m.sig.value;
    call := ReadCall(ts, i, |sig|).value;
    commas := ReadCallSound(ts, i, |sig|);
    pieces := SubstitutePieces(m.body, |m.body|, sig, call.args);
    out := CallTokens(m, call.args, ts[i].lex, next).out;
    Builds(Lexemes(Flat(pieces)), ts[i].lex, next);
    PutInPlace(ts, i, call.close, out);
  }

  lemma Builds(toks: seq<Lexeme>, at: Lexeme, next: nat)
    ensures BuiltFrom(Pasting.ExpandTokens(toks, at, next).out, toks, at)
  {
    hide Pasting.SlotKind, Pasting.SlotText, Pasting.CountStarts, Pasting.BuildUpTo;
    Pasting.ExpandMatches(toks, |toks|, at, next);
  }

  lemma PutInPlace(ts: seq<Token>, start: nat, close: nat, out: seq<Token>)
    requires start <= close < |ts|
    ensures close + 1 < |ts| || start == 0 ==>
              Replaced(ts, start, close, out) == (ts[..start] + out + ts[close + 1..], start)
  {
    var rest := ts[..start] + ts[close + 1..];
    assert rest[..start] == ts[..start] && rest[start..] == ts[close + 1..];
  }

  /** A macro name was replaced by its body. */
  ghost predicate NameReplaced(ts: seq<Token>, i: nat, live: multiset<Token>, next: nat, m: Macro,
                               ts': seq<Token>, i': nat, live': multiset<Token>, next': nat)
  {
    && i < |ts| && i' == i && ExpandCmp(ts[i], m)
    && var b := Pasting.ExpandTokens(Lexemes(m.body), ts[i].lex, next);
       && ts' == ts[..i] + b.out + ts[i + 1..]
       && next' == b.next
       && live' == live + Bag(b.out) - multiset{ts[i]}
  }

  /** What becomes of the name of an object-like macro: what is built of the body, in its place. */
  lemma NameExactly(ts: seq<Token>, i: nat, live: multiset<Token>, next: nat, m: Macro, ts': seq<Token>, i': nat,
                    live': multiset<Token>, next': nat)
    returns (out: seq<Token>)
    requires NameReplaced(ts, i, live, next, m, ts', i', live', next')
    ensures i < |ts| && BuiltFrom(out, Lexemes(m.body), ts[i].lex)
    ensures ts' == ts[..i] + out + ts[i + 1..] && i' == i
    ensures |m.body| == 1 ==> m.body[0].lex.text != ts[i].lex.text
  {
    hide BuiltFrom, Pasting.ExpandTokens, Bag;
    out := Pasting.ExpandTokens(Lexemes(m.body), ts[i].lex, next).out;
    Builds(Lexemes(m.body), ts[i].lex, next);
  }

  /** The token at the cursor was expanded. */
  ghost predicate Substituted(ts: seq<Token>, i: nat, live: multiset<Token>, next: nat, defs: Defs, ts': seq<Token>,
                              i': nat, live': multiset<Token>, next': nat)
  {
    var m := MacroAt(ts, i, defs);
    m.Some? && if m.value.sig.Some? then CallReplaced(ts, i, live, next, m.value, ts', i', live', next')
               else NameReplaced(ts, i, live, next, m.value, ts', i', live', next')
  }

  lemma SubstitutedInside(ts: seq<Token>, i: nat, live: multiset<Token>, next: nat, defs: Defs,
                          ts': seq<Token>, i': nat, live': multiset<Token>, next': nat)
    requires Substituted(ts, i, live, next, defs, ts', i', live', next')
    ensures i < |ts|
  {
  }

  /** Where the source leaves defined behaviour nothing is settled and nothing is replaced. */
  lemma UndefinedNotSubstituted(ts: seq<Token>, i: nat, live: multiset<Token>, next: nat, defs: Defs,
                                ts': seq<Token>, i': nat, live': multiset<Token>, next': nat)
    requires Undefined(ts, i, defs)
    ensures !Settled(ts, i, defs) && !Substituted(ts, i, live, next, defs, ts', i', live', next')
  {
  }

  lemma SettledNotSubstituted(ts: seq<Token>, i: nat, live: multiset<Token>, next: nat, defs: Defs,
                              ts': seq<Token>, i': nat, live': multiset<Token>, next': nat)
    requires Settled(ts, i, defs)
    ensures !Substituted(ts, i, live, next, defs, ts', i', live', next')
  {
  }

  // ----- no blank and no line end comes in -----

  /** Stage 1 left no comment, attribute or white space. */
  ghost predicate Clean(ts: seq<Token>) {
    forall k :: 0 <= k < |ts| ==> !Blank(ts[k].lex.kind)
  }

  ghost predicate NoEol(ts: seq<Token>) {
    forall k :: 0 <= k < |ts| ==> !ts[k].Is(Eol)
  }

  ghost predicate CleanDefs(defs: Defs) {
    forall n :: n in defs ==> Clean(defs[n].body)
  }

  lemma {:induction false} BuildClean(toks: seq<Lexeme>, i: nat, target: Lexeme, next: nat)
    requires i <= |toks| && forall k :: 0 <= k < |toks| ==> !Blank(toks[k].kind)
    ensures var out := Pasting.BuildUpTo(toks, i, target, next).out; Clean(out) && NoEol(out)
  {
    if i > 0 {
      BuildClean(toks, i - 1, target, next);
    }
  }

  /** Arguments consist of tokens of the call. */
  lemma {:induction false} ArgsFrom(ts: seq<Token>, i: nat, count: nat, done: seq<seq<Token>>, cur: seq<Token>,
                                    depth: nat)
    requires |done| < count && depth > 0 && ScanArgs(ts, i, count, done, cur, depth).Some?
    requires (forall k :: 0 <= k < |done| ==> Clean(done[k])) && Clean(cur) && Clean(ts)
    ensures forall k :: 0 <= k < count ==> Clean(ScanArgs(ts, i, count, done, cur, depth).value.args[k])
    decreases |ts| - i
  {
    var t := ts[i];
    if t.Is(RParen) && depth == 1 {
    } else if t.Is(Comma) && depth == 1 {
      ArgsFrom(ts, i + 1, count, done + [cur], [], depth);
    } else {
      ArgsFrom(ts, i + 1, count, done, cur + [t], DepthAfter(t, depth));
    }
  }

  lemma CallTokensClean(ts: seq<Token>, i: nat, m: Macro, next: nat)
    requires Clean(ts) && Clean(m.body) && i < |ts| && m.sig.Some? && m.sig.value != []
    requires ReadCall(ts, i, |m.sig.value|).Some?
    ensures var out := CallTokens(m, ReadCall(ts, i, |m.sig.value|).value.args, ts[i].lex, next).out;
            Clean(out) && NoEol(out)
  {
    var sig := m.sig.value;
    var args := ReadCall(ts, i, |sig|).value.args;
    ArgsFrom(ts, i + 2, |sig|, [], [], 1);
    var toks := Substitute(m.body, |m.body|, sig, args);
    forall k | 0 <= k < |toks| ensures !Blank(Lexemes(toks)[k].kind) {
      SubstituteFrom(m.body, |m.body|, sig, args, toks[k]);
    }
    BuildClean(Lexemes(toks), |toks|, ts[i].lex, next);
  }

  lemma ReplacedClean(ts: seq<Token>, i: nat, close: nat, out: seq<Token>)
    requires i <= close < |ts| && Clean(ts) && NoEol(ts[..i]) && Clean(out) && NoEol(out)
    ensures var r := Replaced(ts, i, close, out); r.1 <= |r.0| && Clean(r.0) && NoEol(r.0[..r.1])
  {
    var rest := ts[..i] + ts[close + 1..];
    var at := if i < |rest| || i == 0 then i else i - 1;
    ReplacedUnfold(ts, i, close, rest, at, out);
    var r := Replaced(ts, i, close, out);
    InsertedClean(rest, at, out, r.1);
  }

  lemma InsertedClean(rest: seq<Token>, at: nat, out: seq<Token>, i: nat)
    requires at <= |rest| && Clean(rest) && Clean(out) && NoEol(out)
    requires at <= i <= |rest| + |out| && NoEol(rest[..at])
    requires i <= at + |out| || NoEol(rest)
    ensures var ts := Lists.Inserted(rest, at, out); Clean(ts) && NoEol(ts[..i])
  {
    var ts := Lists.Inserted(rest, at, out);
    forall k | 0 <= k < i ensures !ts[k].Is(Eol) {
      if k < at {
        assert ts[k] == rest[..at][k];
      } else if k >= at + |out| {
        assert ts[k] == rest[k - |out|];
      }
    }
  }

  lemma SubstitutedClean(ts: seq<Token>, i: nat, live: multiset<Token>, next: nat, defs: Defs,
                         ts': seq<Token>, i': nat, live': multiset<Token>, next': nat)
    requires Substituted(ts, i, live, next, defs, ts', i', live', next')
    requires Clean(ts) && CleanDefs(defs) && NoEol(ts[..i])
    ensures i' <= |ts'| && Clean(ts') && NoEol(ts'[..i'])
  {
    hide Replaced, ReadCall, CallTokens;
    var m := MacroAt(ts, i, defs).value;
    if m.sig.Some? {
      CallTokensClean(ts, i, m, next);
      var call := ReadCall(ts, i, |m.sig.value|).value;
      ReplacedClean(ts, i, call.close, CallTokens(m, call.args, ts[i].lex, next).out);
    } else {
      var toks := Lexemes(m.body);
      BuildClean(toks, |toks|, ts[i].lex, next);
      var out := Pasting.ExpandTokens(toks, ts[i].lex, next).out;
      var rest := ts[..i] + ts[i + 1..];
      assert rest[..i] == ts[..i];
      InsertedClean(rest, i, out, i);
      assert ts' == Lists.Inserted(rest, i, out);
    }
  }

  lemma ReplacedOwns(ts: seq<Token>, i: nat, close: nat, out: seq<Token>, outer: multiset<Token>)
    requires i <= close < |ts|
    ensures outer + Bag(ts) - Bag(ts[i..close + 1]) + Bag(out) == outer + Bag(Replaced(ts, i, close, out).0)
  {
    hide Bag;
    var rest := ts[..i] + ts[close + 1..];
    var at := if i < |rest| || i == 0 then i else i - 1;
    ReplacedUnfold(ts, i, close, rest, at, out);
    BagCutFrom(outer, ts, i, close + 1);
    BagInsert(rest, at, out);
  }

  /** An expansion replaces owned tokens by new ones, one for one in the books. */
  lemma SubstitutedOwns(ts: seq<Token>, i: nat, live: multiset<Token>, next: nat, defs: Defs,
                        ts': seq<Token>, i': nat, live': multiset<Token>, next': nat, outer: multiset<Token>)
    requires Substituted(ts, i, live, next, defs, ts', i', live', next')
    requires live == outer + Bag(ts)
    ensures live' == outer + Bag(ts')
  {
    hide Replaced, ReadCall, CallTokens, Bag;
    var m := MacroAt(ts, i, defs).value;
    if m.sig.Some? {
      var call := ReadCall(ts, i, |m.sig.value|).value;
      ReplacedOwns(ts, i, call.close, CallTokens(m, call.args, ts[i].lex, next).out, outer);
    } else {
      var out := Pasting.ExpandTokens(Lexemes(m.body), ts[i].lex, next).out;
      NameOwns(ts, i, out, outer);
    }
  }

  lemma NameOwns(ts: seq<Token>, i: nat, out: seq<Token>, outer: multiset<Token>)
    requires i < |ts|
    ensures outer + Bag(ts) + Bag(out) - multiset{ts[i]} == outer + Bag(ts[..i] + out + ts[i + 1..])
  {
    var rest := ts[..i] + ts[i + 1..];
    BagDelFrom(outer, ts, i);
    BagInsert(rest, i, out);
    assert rest[..i] == ts[..i] && rest[i..] == ts[i + 1..];
    OneOut(outer + Bag(ts), Bag(out), ts[i]);
  }

  lemma OneOut(a: multiset<Token>, b: multiset<Token>, t: Token)
    requires t in a
    ensures a + b - multiset{t} == a - multiset{t} + b
  {
    forall u ensures (a + b - multiset{t})[u] == (a - multiset{t} + b)[u] {
      assert a[t] >= 1;
    }
  }
}
