/** The preprocessor: a token stream with a cursor (cpp_tokiter.c) and two passes over it (cpp.c). */
module Preprocessor {
  import opened Options
  import opened Tokens
  import opened MacroCalls
  import opened Expansion
  import opened Ownership
  import opened Replacing
  import opened StageTwo
  import opened StageTwoRuns
  import Conditionals
  import Pasting
  import Lists
  import Stage = StageOne

  class Cpp {
    var tokens: seq<Token>
    var index: nat
    var defs: Defs
    var expanded: nat
    /** Whether the stream pointer is set, that is, a file is being processed already. */
    var hasTokens: bool
    var levels: Conditionals.Levels
    /** Requests made to the parser and the file system so far. */
    var clock: nat
    var next: nat
    ghost var live: multiset<Token>

    /** psi_cpp_init. */
    constructor ()
      ensures tokens == [] && !hasTokens && defs == map[] && levels == Conditionals.START && live == multiset{}
      ensures Heap(live, defs, next) && CleanDefs(defs) && Conditionals.Sound(levels)
    {
      Conditionals.StartSound();
      defs := map[];
      tokens, index, expanded, next := [], 0, 0, 0;
      hasTokens, levels, clock := false, Conditionals.START, 0;
      live := multiset{};
    }

    // ----- allocation -----

    /** free: only an allocated token may be freed. */
    ghost method Free(t: Token)
      requires t in live
      requires Heap(live, defs, next)
      modifies this`live
      ensures live == old(live) - multiset{t}
      ensures Heap(live, defs, next)
    {
      live := live - multiset{t};
      HeapShrinks(old(live), live, defs, next);
    }

    ghost method FreeAll(ts: seq<Token>)
      requires Bag(ts) <= live
      requires Heap(live, defs, next)
      modifies this`live
      ensures live == old(live) - Bag(ts)
      ensures Heap(live, defs, next)
    {
      hide Heap, Bag;
      if ts != [] {
        var n := |ts| - 1;
        BagLast(ts);
        Free(ts[n]);
        FreeAll(ts[..n]);
      } else {
        BagNone();
      }
    }

    /** psi_token_init. */
    method NewToken(lex: Lexeme) returns (t: Token)
      requires Heap(live, defs, next)
      modifies this`next, this`live
      ensures t == Token(old(next), lex) && next == old(next) + 1
      ensures live == old(live) + multiset{t}
      ensures Heap(live, defs, next)
    {
      t := Token(next, lex);
      HeapGrows(live, defs, next, t);
      next := next + 1;
      live := live + multiset{t};
    }

    /** psi_token_copy, then made the marker that no white space stands before a parenthesis. */
    method CopyAsMarker(src: Token) returns (t: Token)
      requires Heap(live, defs, next)
      modifies this`next, this`live
      ensures t == Stage.Marker(old(next), src) && next == old(next) + 1
      ensures live == old(live) + multiset{t}
      ensures Heap(live, defs, next)
    {
      hide Heap;
      t := NewToken(Stage.Marker(next, src).lex);
    }

    // ----- the cursor -----

    method Seek(i: nat) returns (found: bool)
      modifies this`index
      ensures found == (i < |tokens|)
      ensures index == if found then i else old(index)
    {
      found := i < |tokens|;
      if found {
        index := i;
      }
    }

    method Prev()
      modifies this`index
      ensures index == Stage.Prev(old(index))
    {
      if index != 0 {
        index := index - 1;
      }
    }

    /** Deletes the token at the cursor; at the end the cursor is pulled back. */
    method DelCur(freeToken: bool) returns (deleted: bool)
      requires freeToken && index < |tokens| ==> tokens[index] in live
      requires Heap(live, defs, next)
      modifies this`tokens, this`index, this`live
      ensures deleted == (old(index) < |old(tokens)|)
      ensures deleted ==> tokens == old(tokens)[..old(index)] + old(tokens)[old(index) + 1..]
      ensures deleted ==> index == Stage.Clip(old(index), |tokens|)
      ensures live == if deleted && freeToken then old(live) - multiset{old(tokens)[old(index)]} else old(live)
      ensures !deleted ==> tokens == old(tokens) && index == old(index)
      ensures Heap(live, defs, next)
    {
      hide Heap;
      deleted := index < |tokens|;
      if deleted {
        if freeToken {
          Free(tokens[index]);
        }
        tokens := tokens[..index] + tokens[index + 1..];
        if index >= |tokens| {
          index := if |tokens| > 0 then |tokens| - 1 else 0;
        }
      }
    }

    /** Deletes up to `n` tokens from `at` on; the cursor is pulled back if it passed the end. */
    method DelRange(at: nat, n: nat, freeTokens: bool) returns (deleted: bool)
      requires n > 0 && tokens != []
      requires freeTokens ==> Bag(tokens) <= live
      requires Heap(live, defs, next)
      modifies this`tokens, this`index, this`live
      ensures tokens == Lists.Removed(old(tokens), at, n)
      ensures var end := Lists.RangeEnd(|old(tokens)|, at, n);
              && deleted == (at < end)
              && index == (if deleted then Stage.Clip(old(index), |tokens|) else old(index))
              && live == (if deleted && freeTokens then old(live) - Bag(old(tokens)[at..end]) else old(live))
      ensures Heap(live, defs, next)
    {
      hide Heap, Bag;
      var end := Lists.RangeEnd(|tokens|, at, n);
      deleted := at < end;
      if deleted {
        BagCut(tokens, at, end);
        if freeTokens {
          FreeAll(tokens[at..end]);
        }
        tokens := tokens[..at] + tokens[end..];
        if index >= |tokens| {
          index := if |tokens| > 0 then |tokens| - 1 else 0;
        }
      }
    }

    method InsCur(t: Token)
      requires index <= |tokens|
      modifies this`tokens
      ensures tokens == Lists.Inserted(old(tokens), index, [t])
    {
      tokens := tokens[..index] + [t] + tokens[index..];
    }

    method InsRange(at: nat, eles: seq<Token>)
      requires at <= |tokens|
      modifies this`tokens
      ensures tokens == Lists.Inserted(old(tokens), at, eles)
    {
      if eles != [] {
        tokens := tokens[..at] + eles + tokens[at..];
      } else {
        assert tokens == tokens[..at] + [] + tokens[at..];
      }
    }

    // ----- replacement lists -----

    /** Merges `tok` into `last` (psi_token_cat), which is freed. */
    method Merge(last: Token, tok: Lexeme, target: Lexeme) returns (merged: Token)
      requires last in live
      requires Heap(live, defs, next)
      modifies this`next, this`live
      ensures merged == Token(old(next) + 1, Pasting.Merged(last.lex, tok, target))
      ensures next == old(next) + 2
      ensures live == old(live) - multiset{last} + multiset{merged}
      ensures Heap(live, defs, next)
    {
      hide Heap;
      var tmp := NewToken(Relocate(Lexeme(last.lex.kind, "", 0, 0, ""), target));
      merged := NewToken(Pasting.Merged(last.lex, tok, target));
      Free(last);
      Free(tmp);
    }

    /** `##`: the last built token and `tok` become one. */
    method Glue(expTokens: array<Token>, n: nat, tok: Lexeme, target: Lexeme, ghost b: Pasting.Build) returns (n': nat)
      requires 0 < n <= expTokens.Length && b.out == expTokens[..n] && b.next == next && Bag(b.out) <= live
      requires Heap(live, defs, next)
      modifies expTokens, this`next, this`live
      ensures var b' := Pasting.Glue(b, tok, target);
              && n' == n && expTokens[..n'] == b'.out && next == b'.next
              && live == old(live) - Bag(b.out) + Bag(b'.out)
      ensures Heap(live, defs, next)
    {
      hide Heap, Bag;
      n' := n;
      var last := expTokens[n - 1];
      assert last == b.out[n - 1];
      BagIn(b.out, n - 1, live);
      var merged := Merge(last, tok, target);
      BagSwapLast(old(live), b.out, merged);
      expTokens[n - 1] := merged;
      assert expTokens[..n] == b.out[..n - 1] + [merged];
    }

    method Append(expTokens: array<Token>, n: nat, tok: Lexeme, stringify: bool, target: Lexeme, ghost b: Pasting.Build)
      returns (n': nat)
      requires n < expTokens.Length && b.out == expTokens[..n] && b.next == next && b.stringify == stringify
      requires Bag(b.out) <= live
      requires Heap(live, defs, next)
      modifies expTokens, this`next, this`live
      ensures var b' := Pasting.Append(b, tok, target);
              && n' == n + 1 && expTokens[..n'] == b'.out && next == b'.next
              && live == old(live) - Bag(b.out) + Bag(b'.out)
      ensures Heap(live, defs, next)
    {
      hide Heap, Bag;
      var t := NewToken(Pasting.Copied(tok, stringify, target));
      BagSnoc(b.out, t);
      expTokens[n] := t;
      n' := n + 1;
      assert expTokens[..n'] == b.out + [t];
    }

    /** Inserts the expansion of `toks` at the cursor, placed where `target` stood. */
    method ExpandTokens(target: Lexeme, toks: seq<Token>) returns (n: nat)
      requires index <= |tokens|
      requires Heap(live, defs, next)
      modifies this`tokens, this`next, this`live
      ensures var b := Pasting.ExpandTokens(Lexemes(toks), target, old(next));
              && tokens == Lists.Inserted(old(tokens), index, b.out)
              && next == b.next && n == |b.out|
              && live == old(live) + Bag(b.out)
      ensures Heap(live, defs, next)
    {
      hide Heap, Pasting.BuildUpTo, Pasting.Step, Bag;
      BagNone();
      n := 0;
      ghost var ls := Lexemes(toks);
      Pasting.BuildUnfold(ls, 0, target, next);
      if toks == [] {
        assert tokens == tokens[..index] + [] + tokens[index..];
        return;
      }
      var i, stringify, paste := 0, false, false;
      var expTokens := new Token[|toks|];
      while i < |toks|
        invariant i <= |toks| && n <= i
        invariant Built(Pasting.BuildUpTo(ls, i, target, old(next)), expTokens, n, stringify, paste, old(live))
        invariant Heap(live, defs, next)
        invariant tokens == old(tokens) && index == old(index)
      {
        ghost var b := Pasting.BuildUpTo(ls, i, target, old(next));
        Pasting.BuildUnfold(ls, i + 1, target, old(next));
        n, stringify, paste := Paste(expTokens, n, toks[i].lex, target, stringify, paste, b, old(live));
        i := i + 1;
      }
      InsRange(index, expTokens[..n]);
    }

    /** The first `n` of `expTokens`, with the flags of the loop, are what the reference has built. */
    ghost predicate Built(b: Pasting.Build, expTokens: array<Token>, n: nat, stringify: bool, paste: bool,
                          before: multiset<Token>)
      reads this, expTokens
    {
      && n <= expTokens.Length && b.out == expTokens[..n] && b.next == next && b.paste == paste
      && b.stringify == stringify
      && live == before + Bag(b.out)
    }

    /** One token of a replacement list. */
    method Paste(expTokens: array<Token>, n0: nat, tok: Lexeme, target: Lexeme, stringify0: bool, paste0: bool,
                 ghost b: Pasting.Build, ghost before: multiset<Token>) returns (n: nat, stringify: bool, paste: bool)
      requires Built(b, expTokens, n0, stringify0, paste0, before) && n0 < expTokens.Length && Heap(live, defs, next)
      modifies expTokens, this`next, this`live
      ensures Built(Pasting.Step(b, tok, target), expTokens, n, stringify, paste, before) && n0 <= n <= n0 + 1
      ensures Heap(live, defs, next)
    {
      hide Heap, Bag;
      n, stringify, paste := n0, stringify0, paste0;
      if tok.kind == Eol {
        return;
      }
      if tok.kind == Hash {
        stringify := true;
        return;
      }
      if tok.kind == Kind.Paste {
        paste := true;
        return;
      }
      if paste && n > 0 {
        n := Glue(expTokens, n, tok, target, b);
      } else {
        n := Append(expTokens, n, tok, stringify, target, b);
      }
      paste, stringify := false, false;
    }

    /** Replaces an object-like macro name by its body. */
    method ExpandDef(target: Token, macro: Macro)
      requires index < |tokens| && tokens[index] == target && target in live
      requires Heap(live, defs, next)
      modifies this`tokens, this`index, this`next, this`live, this`expanded
      ensures var b := Pasting.ExpandTokens(Lexemes(macro.body), target.lex, old(next));
              && tokens == old(tokens)[..old(index)] + b.out + old(tokens)[old(index) + 1..]
              && next == b.next
              && live == old(live) + Bag(b.out) - multiset{target}
      ensures index == old(index) && expanded == old(expanded) + 1
      ensures Heap(live, defs, next)
    {
      hide Heap, Bag;
      var i := index;
      var deleted := DelCur(false);
      if i != index {
        index := index + 1;
      }
      assert tokens[..i] == old(tokens)[..i] && tokens[i..] == old(tokens)[i + 1..];
      var n := ExpandTokens(target.lex, macro.body);
      Free(target);
      expanded := expanded + 1;
    }

    // ----- function-like macros -----

    /** Reads the arguments of the call at the cursor, which ends up on the closing parenthesis;
        parentheses and commas of a complete call are freed. */
    method ReadCallTokens(count: nat) returns (r: Option<Call>)
      requires count > 0 && index + 1 < |tokens| && Bag(tokens) <= live
      requires Heap(live, defs, next)
      modifies this`index, this`live
      ensures r == ReadCall(tokens, old(index), count)
      ensures r.Some? ==> index == r.value.close
      ensures r.Some? ==>
                Balances(live, tokens[old(index) + 1..index + 1], old(live), Flat(r.value.args))
      ensures r.None? ==> live == old(live)
      ensures Heap(live, defs, next)
    {
      hide Heap, Flat, ReadCall, Balances, Bag;
      var start, free := index, [];
      r, free := ReadArgs(count);
      if r.Some? {
        BagCut(tokens, start + 1, index + 1);
        FreeSeparators(tokens[start + 1..index + 1], free, Flat(r.value.args));
      }
    }

    /** The reading loop; `free` collects what is no part of an argument. */
    method ReadArgs(count: nat) returns (r: Option<Call>, free: seq<Token>)
      requires count > 0 && index + 1 < |tokens|
      modifies this`index
      ensures r == ReadCall(tokens, old(index), count)
      ensures r.Some? ==> index == r.value.close
      ensures r.Some? ==> Bag(tokens[old(index) + 1..index + 1]) == Bag(free) + Bag(Flat(r.value.args))
    {
      hide Reading, ReadCall;
      var start := index;
      var done, cur: seq<Token> := [], [];
      free := [];
      index := index + 1;
      ReadingBegins(tokens, start, count);
      if !tokens[index].Is(LParen) {
        return None, free;
      }
      free := [tokens[index]];
      var lparens, rparens := 1, 0;
      while lparens > rparens
        invariant lparens >= rparens && index < |tokens|
        invariant Reading(tokens, start, index, count, done, cur, free, lparens - rparens)
        decreases |tokens| - index, lparens - rparens
      {
        ReadingGoesOn(tokens, start, index, count, done, cur, free, lparens - rparens);
        index := index + 1;
        if index >= |tokens| {
          return None, free;
        }
        var tok := tokens[index];
        if tok.Is(LParen) {
          lparens := lparens + 1;
          cur := cur + [tok];
        } else if tok.Is(RParen) {
          rparens := rparens + 1;
          if rparens == lparens {
            if |done| + 1 < count {
              return None, free;
            }
            free := free + [tok];
          } else {
            cur := cur + [tok];
          }
        } else if tok.Is(Comma) && lparens - rparens == 1 {
          if |done| + 1 >= count {
            return None, free;
          }
          free := free + [tok];
          done, cur := done + [cur], [];
        } else {
          cur := cur + [tok];
        }
      }
      ReadingEnds(tokens, start, index, count, done, cur, free);
      r := Some(Call(done + [cur], index));
    }

    ghost method FreeSeparators(read: seq<Token>, separators: seq<Token>, kept: seq<Token>)
      requires Bag(read) == Bag(separators) + Bag(kept) && Bag(read) <= live
      requires Heap(live, defs, next)
      modifies this`live
      ensures Balances(live, read, old(live), kept)
      ensures Heap(live, defs, next)
    {
      hide Heap, Bag;
      FreeAll(separators);
    }

    /** Substitutes the arguments into the macro's body and inserts the expansion at the cursor. */
    method ExpandCallTokens(target: Lexeme, macro: Macro, args: seq<seq<Token>>)
      requires index <= |tokens| && macro.sig.Some? && |args| == |macro.sig.value|
      requires Fits(macro.body, macro.sig.value, args)
      requires Heap(live, defs, next)
      modifies this`tokens, this`next, this`live
      ensures var b := CallTokens(macro, args, target, old(next));
              && tokens == Lists.Inserted(old(tokens), index, b.out)
              && next == b.next
              && live == old(live) + Bag(b.out)
      ensures Heap(live, defs, next)
    {
      hide Heap, Bag, Fits, Substitute;
      var toks := SubstituteArgs(macro.body, macro.sig.value, args);
      var n := ExpandTokens(target, toks);
    }

    /** The body with its parameters replaced, built in an array list. */
    method SubstituteArgs(body: seq<Token>, sig: seq<Token>, args: seq<seq<Token>>) returns (toks: seq<Token>)
      requires |args| == |sig| && Fits(body, sig, args)
      ensures toks == Substitute(body, |body|, sig, args)
    {
      hide Fits, Substitute;
      SubstituteNone(body, sig, args);
      var list := new Lists.PList<Token>();
      for i := 0 to |body|
        invariant fresh(list) && fresh(list.list) && list.Valid()
        invariant list.count == 0 ==> list.list.Length == 1
        invariant list.Contents() == Substitute(body, i, sig, args)
      {
        FitsNext(body, i, sig, args);
        var tok := body[i];
        var s := if tok.Is(Name) then ParamIndex(tok, sig) else |sig|;
        if s < |sig| {
          list.AddR(args[s]);
        } else {
          list.Add(tok);
        }
      }
      toks := list.list[..list.count];
    }

    /** Replaces a macro call; `Unchanged` if what follows the name is not one. */
    method ExpandCall(target: Token, macro: Macro) returns (r: Expanded)
      requires macro.sig.Some? && index < |tokens| && tokens[index] == target && Bag(tokens) <= live
      requires Heap(live, defs, next)
      modifies this`tokens, this`index, this`next, this`live, this`expanded
      ensures r.Broken? <==> CallUndefined(old(tokens), old(index), macro)
      ensures r.Replacing? ==>
                CallReplaced(old(tokens), old(index), old(live), old(next), macro, tokens, index, live, next)
      ensures r.Unchanged? ==> ReadCall(tokens, index, |macro.sig.value|).None?
      ensures r.Unchanged? ==> tokens == old(tokens) && index == old(index) && live == old(live) && next == old(next)
      ensures Heap(live, defs, next)
    {
      hide Heap, Flat, Fits, ReadCall, Balances, Replaced, CallTokens, Bag;
      var start, sig := index, macro.sig.value;
      if sig == [] || index + 1 >= |tokens| {
        return Broken;
      }
      var call := ReadCallTokens(|sig|);
      if call.None? {
        var _ := Seek(start);
        return Unchanged;
      }
      var args := call.value.args;
      if !Fits(macro.body, sig, args) {
        return Broken;
      }
      ReplaceCall(target, macro, call.value, start, old(live));
      r := Replacing;
    }

    /** The second half of a macro call: the call, read up to its closing parenthesis, is replaced. */
    method ReplaceCall(target: Token, macro: Macro, call: Call, start: nat, ghost before: multiset<Token>)
      requires macro.sig.Some? && |call.args| == |macro.sig.value| && Fits(macro.body, macro.sig.value, call.args)
      requires start <= index < |tokens| && index == call.close && tokens[start] == target
      requires Bag(tokens) <= before
      requires Balances(live, tokens[start + 1..index + 1], before, Flat(call.args))
      requires Heap(live, defs, next)
      modifies this`tokens, this`index, this`next, this`live, this`expanded
      ensures var b := CallTokens(macro, call.args, target.lex, old(next));
              && tokens == Replaced(old(tokens), start, call.close, b.out).0
              && index == Replaced(old(tokens), start, call.close, b.out).1
              && next == b.next
              && live == before - Bag(old(tokens)[start..call.close + 1]) + Bag(b.out)
      ensures Heap(live, defs, next)
    {
      hide Heap, Flat, CallTokens, Fits, Replaced, Lists.Inserted, Bag, Balances;
      ghost var ts, out := tokens, CallTokens(macro, call.args, target.lex, next).out;
      CutCall(start);
      ReplacedUnfold(ts, start, call.close, tokens, index, out);
      ExpandCallTokens(target.lex, macro, call.args);
      var _ := Seek(start);
      expanded := expanded + 1;
      FreeCall(target, ts[start..call.close + 1], ts[start + 1..call.close + 1], Flat(call.args), out, before) by {
        BagCut(ts, start, call.close + 1);
        assert ts[start..call.close + 1] == [target] + ts[start + 1..call.close + 1];
      }
    }

    /** Frees the arguments and the name of a call whose parentheses and commas are freed already. */
    ghost method FreeCall(name: Token, call: seq<Token>, read: seq<Token>, args: seq<Token>, out: seq<Token>,
                          before: multiset<Token>)
      requires call == [name] + read && Bag(call) <= before
      requires exists l :: live == l + Bag(out) && Balances(l, read, before, args)
      requires Heap(live, defs, next)
      modifies this`live
      ensures live == before - Bag(call) + Bag(out)
      ensures Heap(live, defs, next)
    {
      hide Heap, Bag;
      assert call == [name] + read;
      BagName(name, read);
      var l :| live == l + Bag(out) && Balances(l, read, before, args);
      CallFreed(before, Bag(call), Bag(read), l, Bag(args), name, Bag(out));
      FreeAll(args);
      Free(name);
    }

    /** Takes the call from `start` to the cursor out of the stream and goes back to its start, if it can. */
    method CutCall(start: nat)
      requires start <= index < |tokens|
      requires Heap(live, defs, next)
      modifies this`tokens, this`index, this`live
      ensures tokens == old(tokens)[..start] + old(tokens)[old(index) + 1..] && live == old(live)
      ensures index == if start < |tokens| || start == 0 then start else start - 1
      ensures Heap(live, defs, next)
    {
      hide Heap;
      var _ := DelRange(start, index - start + 1, false);
      var _ := Seek(start);
    }

    /** Tries to expand the token at the cursor. */
    method Expand() returns (r: Expanded)
      requires Bag(tokens) <= live
      requires Heap(live, defs, next)
      modifies this`tokens, this`index, this`next, this`live, this`expanded
      ensures r.Broken? <==> Undefined(old(tokens), old(index), defs)
      ensures r.Unchanged? ==> Settled(tokens, index, defs)
      ensures r.Unchanged? ==> tokens == old(tokens) && index == old(index) && live == old(live) && next == old(next)
      ensures r.Replacing? ==>
                Substituted(old(tokens), old(index), old(live), old(next), defs, tokens, index, live, next)
      ensures Heap(live, defs, next)
    {
      hide Heap, Bag, ReadCall, Fits, CallReplaced;
      if index >= |tokens| {
        return Unchanged;
      }
      var current := tokens[index];
      BagIn(tokens, index, live);
      if current.lex.text in defs && defs[current.lex.text].token.id != current.id {
        var macro := defs[current.lex.text];
        if macro.sig.Some? {
          r := ExpandCall(current, macro);
          return;
        } else if ExpandCmp(current, macro) {
          ExpandDef(current, macro);
          return Replacing;
        }
      }
      r := Unchanged;
    }

    // ----- stage 1 -----

    method DropCurrent(ghost outer: multiset<Token>)
      requires index < |tokens| && live == outer + Bag(tokens)
      requires Heap(live, defs, next)
      modifies this`tokens, this`index, this`live
      ensures tokens == old(tokens)[..old(index)] + old(tokens)[old(index) + 1..]
      ensures index == Stage.Clip(old(index), |old(tokens)| - 1)
      ensures live == outer + Bag(tokens)
      ensures Heap(live, defs, next)
    {
      hide Heap, Bag;
      BagDelFrom(outer, tokens, index);
      var _ := DelCur(true);
    }

    /** Takes out the line end at the cursor and the backslash before it. */
    method SpliceLine(ghost outer: multiset<Token>)
      requires 0 < index < |tokens| && tokens[index - 1].Is(BSlash) && tokens[index].Is(Eol)
      requires live == outer + Bag(tokens)
      requires Heap(live, defs, next)
      modifies this`tokens, this`index, this`live
      ensures tokens == old(tokens)[..old(index) - 1] + old(tokens)[old(index) + 1..]
      ensures index == Stage.Prev(Stage.Clip(old(index), |old(tokens)| - 2))
      ensures live == outer + Bag(tokens)
      ensures Heap(live, defs, next)
    {
      hide Heap, Bag;
      BagCutFrom(outer, tokens, index - 1, index + 1);
      var _ := DelRange(index - 1, 2, true);
      Prev();
    }

    /** Inserts the marker for the parenthesis at the cursor: its copy with another type and text. */
    method InsertMarker(ghost outer: multiset<Token>)
      requires index < |tokens| && live == outer + Bag(tokens)
      requires Heap(live, defs, next)
      modifies this`tokens, this`next, this`live
      ensures tokens == old(tokens)[..index] + [Stage.Marker(old(next), old(tokens)[index])] + old(tokens)[index..]
      ensures next == old(next) + 1 && live == outer + Bag(tokens)
      ensures Heap(live, defs, next)
    {
      hide Heap, Bag, Stage.Marker;
      var noWs := CopyAsMarker(tokens[index]);
      BagInsFrom(outer, tokens, index, noWs);
      InsCur(noWs);
    }

    /** The flags after a token that stays. */
    method Note(k: Kind, flags: Stage.Flags) returns (f: Stage.Flags)
      ensures f == Stage.Note(flags, k)
    {
      f := flags.(ws := false);
      if k == Eol {
        f := f.(eol := true);
      } else if k == Hash {
        if f.eol {
          f := f.(hash := true, eol := false);
        }
      } else if k == Kind.Define {
        if f.hash {
          f := f.(define := true, hash := false);
        }
      } else if k == Name {
        if f.define {
          f := f.(name := true, define := false);
        }
      } else {
        f := f.(name := false, define := false, hash := false, eol := false);
      }
    }

    /** The escape flag after a token that is not spliced. */
    method Escape(k: Kind, flags: Stage.Flags) returns (f: Stage.Flags)
      ensures f == Stage.Escape(flags, k)
    {
      f := flags;
      if k == BSlash {
        f := f.(esc := !f.esc);
      } else if k != Eol {
        f := f.(esc := false);
      }
    }

    /** One round of stage 1 at the cursor. */
    method Stage1Round(flags: Stage.Flags, ghost outer: multiset<Token>) returns (f: Stage.Flags)
      requires index < |tokens| && live == outer + Bag(tokens)
      requires var l := Stage.Loop(tokens, index, next, flags); Stage.MaySplice(l) ==> Stage.AfterBackslash(l)
      requires Heap(live, defs, next)
      modifies this`tokens, this`index, this`next, this`live
      ensures Stage.Loop(tokens, index, next, f)
           == Stage.Iterate(Stage.Loop(old(tokens), old(index), old(next), flags))
      ensures live == outer + Bag(tokens)
      ensures Heap(live, defs, next)
    {
      hide Heap, Bag, Stage.Marker, Stage.Note, Stage.Escape, Stage.Iterate, Stage.Clip, Stage.Prev;
      f := flags;
      ghost var l := Stage.Loop(tokens, index, next, flags);
      var token := tokens[index];
      if token.Is(Comment) || token.Is(Attribute) {
        Stage.IterateDrops(l);
        DropCurrent(outer);
        return;
      }
      if token.Is(Eol) && f.esc {
        Stage.IterateSplices(l);
        SpliceLine(outer);
        f := f.(esc := false);
        return;
      }
      f := Stage1Unspliced(flags, outer);
    }

    /** The rest of it, for a token that is not spliced away. */
    method Stage1Unspliced(flags: Stage.Flags, ghost outer: multiset<Token>) returns (f: Stage.Flags)
      requires index < |tokens| && live == outer + Bag(tokens)
      requires tokens[index].lex.kind !in {Comment, Attribute}
      requires !Stage.MaySplice(Stage.Loop(tokens, index, next, flags))
      requires Heap(live, defs, next)
      modifies this`tokens, this`index, this`next, this`live
      ensures Stage.Loop(tokens, index, next, f)
           == Stage.Iterate(Stage.Loop(old(tokens), old(index), old(next), flags))
      ensures live == outer + Bag(tokens)
      ensures Heap(live, defs, next)
    {
      hide Heap, Bag, Stage.Marker, Stage.Note, Stage.Escape, Stage.Iterate, Stage.Clip, Stage.Prev;
      ghost var l := Stage.Loop(tokens, index, next, flags);
      var token := tokens[index];
      f := Escape(token.lex.kind, flags);
      if token.Is(Whitespace) {
        Stage.IterateSkipsSpace(l);
        f := f.(name := false, ws := true);
        DropCurrent(outer);
        return;
      }
      if token.Is(LParen) && f.name && !f.ws {
        Stage.IterateMarks(l);
        f := f.(name := false);
        InsertMarker(outer);
        return;
      }
      Stage.IterateKeeps(l);
      f := Note(token.lex.kind, f);
      index := index + 1;
    }

    /** Strips comments, attributes, white space and line splices and marks macro signatures. */
    method Stage1(ghost outer: multiset<Token>)
      requires live == outer + Bag(tokens)
      requires Heap(live, defs, next)
      modifies this`tokens, this`index, this`next, this`live, this`expanded
      ensures tokens == Stage.Result(old(tokens), old(next))
      ensures next == Stage.Whole(old(tokens), old(next)).next
      ensures live == outer + Bag(tokens)
      ensures Heap(live, defs, next)
    {
      hide Heap, Bag, Stage.Sim, Stage.Result, Stage.Whole, Stage.Iterate;
      var f := Stage.INITIAL;
      index, expanded := 0, 0;
      ghost var input, next0, p, ph := tokens, next, 0, Stage.Normal;
      Stage.SimStart(input, next0);
      while index < |tokens|
        invariant p <= |input| && Stage.Sim(input, next0, p, ph, Stage.Loop(tokens, index, next, f))
        invariant live == outer + Bag(tokens) && Heap(live, defs, next)
        decreases |input| - p, Stage.Rank(ph), |tokens|, |tokens| - index
      {
        ghost var l := Stage.Loop(tokens, index, next, f);
        p, ph := Stage.SimStep(input, next0, p, ph, l);
        Stage.SimBounds(input, next0, p, ph, Stage.Iterate(l));
        f := Stage1Round(f, outer);
      }
      Stage.SimDone(input, next0, p, ph, Stage.Loop(tokens, index, next, f));
    }

    // ----- stage 2 -----

    /** The stream, for the record of a run. */
    ghost function Here(): Place
      reads this
    {
      Place(tokens, index, live, next)
    }

    ghost function Now(scan: Scan, pending: seq<Token>): Snap
      reads this
    {
      Snap(tokens, index, next, scan, pending, defs, levels, clock)
    }

    /** The flags after looking at a token of type `k`. */
    method LookAt(scan: Scan, k: Kind) returns (s: Scan)
      ensures s == Look(scan, k)
    {
      s := scan;
      if k == Hash {
        if s.isEol {
          s := s.(doCpp := true, isEol := false);
        }
      } else if k == Eol {
        s := s.(isEol := true, skipAll := false, doExpansion := true);
      } else {
        s := s.(isEol := false);
        if s.doCpp {
          match k {
            case Define => s := s.(doExpansion := false, skipAll := true);
            case Defined => s := s.(skipParen := true, doExpansion := false);
            case Ifdef => s := s.(doExpansion := false);
            case Ifndef => s := s.(doExpansion := false);
            case Undef => s := s.(doExpansion := false);
            case LParen =>
              if !s.skipAll {
                if s.skipParen {
                  s := s.(skipParen := false);
                } else {
                  s := s.(doExpansion := true);
                }
              }
            case Name =>
            case _ => s := s.(doExpansion := !s.skipAll);
          }
        }
      }
    }

    /** Expands at the cursor until nothing more is expanded there. If the stream is plain text
        (`text`) this ends within the given steps and keeps on the way to `goal`. */
    method ExpandAll(steps0: nat, ghost outer: multiset<Token>, ghost text: bool, ghost use: Defs,
                     ghost rank: string -> nat, ghost goal: seq<Lexeme>)
      returns (r: Verdict, expandedAny: bool, steps: nat, ghost places: seq<Place>)
      requires Heap(live, defs, next) && live == outer + Bag(tokens)
      requires index < |tokens| && Clean(tokens) && CleanDefs(defs) && NoEol(tokens[..index])
      requires text ==> Scanning(defs, use, rank, goal, tokens, index, steps0 + 1, false) && tokens[index].Is(Name)
      modifies this`tokens, this`index, this`next, this`live, this`expanded
      ensures Heap(live, defs, next) && steps <= steps0 && !r.Failed?
      ensures !r.Stuck? ==> live == outer + Bag(tokens) && index <= |tokens| && Clean(tokens) && NoEol(tokens[..index])
      ensures r.Done? && !expandedAny ==>
                tokens == old(tokens) && index == old(index) && next == old(next) && live == old(live)
      ensures r.Done? ==> Settled(tokens, index, defs)
      ensures Chain(defs, places) && places != [] && places[0] == old(Here())
      ensures r.Done? && !expandedAny <==> Settled(old(tokens), old(index), defs)
      ensures r.Done? ==>
                places[|places| - 1] == Here() && (expandedAny <==> |places| > 1) && steps + |places| - 1 == steps0
      ensures r.Stuck? ==> var p := places[|places| - 1]; Undefined(p.tokens, p.index, defs) && |places| - 1 <= steps0
      ensures r.OutOfSteps? ==> |places| - 1 > steps0
      ensures Settled(old(tokens), old(index), defs) && !Undefined(old(tokens), old(index), defs) ==>
                r.Done? && !expandedAny && steps == steps0
      ensures text ==>
                r.Done? && if expandedAny then InText(defs, use, rank, goal, tokens, index, steps) else steps == steps0
      decreases steps0
    {
      hide Heap, Bag, Clean, CleanDefs, NoEol, Substituted, Settled, Undefined, InText, Scanning, Chain, ExpandsOnce;
      steps, expandedAny := steps0, false;
      places := [Here()];
      ChainBegins(defs, Here());
      ghost var bound: int := steps0 + 1;
      while true
        invariant Heap(live, defs, next) && live == outer + Bag(tokens)
        invariant index <= |tokens| && Clean(tokens) && NoEol(tokens[..index])
        invariant steps + |places| - 1 == steps0
        invariant expandedAny ==> !Settled(old(tokens), old(index), defs)
        invariant !expandedAny ==>
                  && tokens == old(tokens) && index == old(index) && next == old(next) && live == old(live)
                  && steps == steps0
        invariant Chain(defs, places) && places != [] && places[0] == old(Here()) && places[|places| - 1] == Here()
        invariant if expandedAny then |places| > 1 else |places| == 1
        invariant text ==> Scanning(defs, use, rank, goal, tokens, index, bound, expandedAny)
        invariant text ==> if expandedAny then bound <= steps else bound == steps + 1
        decreases steps
      {
        ghost var ts, i, live0, next0 := tokens, index, live, next;
        BagWithin(outer, tokens);
        if text { TextIsDefined(defs, use, rank, goal, ts, i, bound, expandedAny); }
        var e := Expand();
        if e.Broken? {
          UndefinedNotSubstituted(ts, i, live0, next0, defs, ts, i, live0, next0);
          return Stuck, expandedAny, steps, places;
        }
        if e.Unchanged? {
          if text && expandedAny {
            TokensApart(live, defs, next, outer, ts);
            TextSettles(defs, use, rank, goal, ts, i, bound);
            InTextMore(defs, use, rank, goal, ts, i, bound, steps);
          }
          return Done, expandedAny, steps, places;
        }
        if Settled(ts, i, defs) { SettledNotSubstituted(ts, i, live0, next0, defs, tokens, index, live, next); }
        SubstitutedClean(ts, i, live0, next0, defs, tokens, index, live, next);
        SubstitutedOwns(ts, i, live0, next0, defs, tokens, index, live, next, outer);
        ChainGrows(defs, places, Here());
        places := places + [Here()];
        if text {
          SubstitutedInside(ts, i, live0, next0, defs, tokens, index, live, next);
          ScanningNeedsSteps(defs, use, rank, goal, ts, i, bound, expandedAny);
          TextExpands(defs, use, rank, goal, ts, i, bound, expandedAny, tokens, live0, live, next0, next, index);
          bound := bound - 3;
        }
        if steps == 0 {
          return OutOfSteps, true, steps, places;
        }
        steps, expandedAny := steps - 1, true;
      }
    }

    // ----- directives -----

    /** Executes a parsed directive (psi_cpp_exp_exec). Inclusion is the only kind that changes the
        stream: it inserts processed tokens before the cursor. */
    method Exec(env: Env, d: Directive, steps: nat, ghost outer: multiset<Token>, ghost scan: Scan,
                ghost pending: seq<Token>)
      returns (r: Verdict, left: nat, ghost inc: seq<Token>, ghost sub: Option<Run>, ghost stop: Stop)
      requires Heap(live, defs, next) && live == outer + Bag(tokens) && hasTokens && index <= |tokens|
      requires CleanDefs(defs) && CleanEnv(env) && CleanDirective(d) && Conditionals.Sound(levels)
      modifies this
      ensures r.Done? ==>
                && Heap(live, defs, next) && live == outer + Bag(tokens) && hasTokens && CleanDefs(defs)
                && Conditionals.Sound(levels)
      ensures r.Done? ==> Included(old(tokens), old(index), inc, tokens, index)
      ensures r.Done? ==>
                && Effect(env, d, old(Now(scan, pending)), sub, Now(scan, pending))
                && left + Extra(Executed(d, sub)) == steps
      ensures !r.Done? ==> Breaks(env, d, old(Now(scan, pending)), sub, stop, r, steps)
      ensures !r.Failed?
      decreases steps, 3
    {
      hide Heap, Bag, CleanDefs, CleanEnv, Included, Inclusion, Conditionals.Sound, Conditionals.Exec;
      left, inc, sub, stop := steps, [], None, AtRound;
      NothingIncluded(tokens, index);
      match d {
        case Group(g) =>
          var ok := ExecGroup(g);
          if !ok {
            r := Stuck;
            return;
          }
        case IfDefined(name, negated) =>
          var ok := ExecGroup(Conditionals.If((name in defs) != negated));
          if !ok {
            r := Stuck;
            return;
          }
        case DefineMacro(head, sig, body) =>
          if levels.skip == 0 {
            Define(head, sig, body);
          }
        case UndefMacro(name) =>
          if levels.skip == 0 {
            UndefKeeps(live, defs, next, name);
            defs := defs - {name};
          }
        case IncludeFile(file) =>
          if levels.skip == 0 {
            r, left, inc, sub, stop := Include(env, file, steps, outer, scan, pending);
            return;
          }
        case NoEffect =>
      }
      r := Done;
    }

    /** A directive of an #if group, unless it is nested too deep; then the levels stay as they are here. */
    method ExecGroup(g: Conditionals.Group) returns (ok: bool)
      requires Conditionals.Sound(levels)
      modifies this`levels
      ensures ok == Conditionals.Exec(old(levels), g).ok && Conditionals.Sound(levels)
      ensures levels == if ok then Conditionals.Exec(old(levels), g).levels else old(levels)
    {
      hide Conditionals.Sound, Conditionals.Exec;
      Conditionals.ExecSound(levels, g);
      var outcome := Conditionals.Exec(levels, g);
      ok := outcome.ok;
      if ok {
        levels := outcome.levels;
      }
    }

    /** psi_cpp_define, with tokens of its own for the stored macro. */
    method Define(head: Lexeme, sig: Option<seq<Lexeme>>, body: seq<Lexeme>)
      requires Heap(live, defs, next) && CleanDefs(defs)
      requires forall k :: 0 <= k < |body| ==> !Blank(body[k].kind)
      modifies this`defs, this`next
      ensures Heap(live, defs, next) && CleanDefs(defs)
      ensures defs == old(defs)[head.text := StoredMacro(head, sig, body, old(next))]
      ensures next == old(next) + 1 + SigSize(sig) + |body|
    {
      hide Heap, CleanDefs;
      StoredMacroIsNew(head, sig, body, next);
      var macro := StoredMacro(head, sig, body, next);
      DefineKeeps(live, defs, next, head.text, macro, next + 1 + SigSize(sig) + |body|);
      defs := defs[head.text := macro];
      next := next + 1 + SigSize(sig) + |body|;
    }

    /** psi_cpp_include, the search for the file aside. */
    method Include(env: Env, file: Lexeme, steps: nat, ghost outer: multiset<Token>, ghost scan: Scan,
                   ghost pending: seq<Token>)
      returns (r: Verdict, left: nat, ghost inc: seq<Token>, ghost sub: Option<Run>, ghost stop: Stop)
      requires Heap(live, defs, next) && live == outer + Bag(tokens) && hasTokens && index <= |tokens|
      requires CleanDefs(defs) && CleanEnv(env) && Conditionals.Sound(levels)
      modifies this
      ensures r.Done? ==>
                && Heap(live, defs, next) && live == outer + Bag(tokens) && hasTokens && CleanDefs(defs)
                && Conditionals.Sound(levels)
      ensures r.Done? ==> Included(old(tokens), old(index), inc, tokens, index)
      ensures r.Done? ==>
                Inclusion(env, file, old(Now(scan, pending)), sub, Now(scan, pending)) && left + OfSub(sub) == steps
      ensures !r.Done? ==>
                && sub.Some? && Enters(env, file, old(Now(scan, pending)), sub.value)
                && BreaksIn(env, sub.value, stop, r, steps)
      ensures !r.Failed?
      decreases steps, 2, 1
    {
      hide Heap, Bag, CleanDefs, CleanEnv, Included, Clean, NoEol, IsRun, Rejected, Start, Stage.Result, Stage.Whole,
        Conditionals.Sound, BreaksIn;
      left, inc, sub, stop := steps, [], None, AtRound;
      NothingIncluded(tokens, index);
      clock := clock + 1;
      match env.open(clock, file) {
        case Scanned(ls) =>
          r, left, inc, sub, stop := IncludeScanned(env, file, ls, steps, outer, scan, pending);
        case _ =>
          r := Done;
      }
    }

    method IncludeScanned(env: Env, ghost file: Lexeme, ls: seq<Lexeme>, steps: nat, ghost outer: multiset<Token>,
                          ghost scan: Scan, ghost pending: seq<Token>)
      returns (r: Verdict, left: nat, ghost inc: seq<Token>, ghost sub: Option<Run>, ghost stop: Stop)
      requires Heap(live, defs, next) && live == outer + Bag(tokens) && hasTokens && index <= |tokens|
      requires CleanDefs(defs) && CleanEnv(env) && Conditionals.Sound(levels) && env.open(clock, file) == Scanned(ls)
      requires clock > 0
      modifies this
      ensures r.Done? ==>
                && Heap(live, defs, next) && live == outer + Bag(tokens) && hasTokens && CleanDefs(defs)
                && Conditionals.Sound(levels)
      ensures r.Done? ==> Included(old(tokens), old(index), inc, tokens, index)
      ensures sub.Some?
      ensures r.Done? ==>
                && Inclusion(env, file, old(Now(scan, pending)).(clock := old(clock) - 1), sub, Now(scan, pending))
                && left + Price(sub.value) == steps
      ensures !r.Done? ==>
                && Enters(env, file, old(Now(scan, pending)).(clock := old(clock) - 1), sub.value)
                && BreaksIn(env, sub.value, stop, r, steps)
      ensures !r.Failed?
      decreases steps, 2, 0
    {
      hide Heap, Bag, CleanDefs, CleanEnv, Included, Clean, NoEol, IsRun, Rejected, Inclusion, Enters, Start,
        Stage.Result, Stage.Whole, Conditionals.Sound, BreaksIn, Price;
      inc := [];
      NothingIncluded(tokens, index);
      ghost var a := Now(scan, pending).(clock := clock - 1);
      StartsWith(ls, a.(clock := a.clock + 1));
      var scanned := Scan(ls);
      var out;
      ghost var run;
      r, out, left, run, stop := Process(env, scanned, steps, outer + Bag(tokens), false, defs, _ => 0);
      sub := Some(run);
      assert First(run) == Start(ls, a.(clock := a.clock + 1));
      if r.Stuck? || r.OutOfSteps? {
        EntersWith(env, file, ls, a, run);
        return;
      }
      if r.Done? {
        Insert(out, outer);
        inc := out;
        InclusionDone(env, file, ls, a, run, Now(scan, pending));
      } else {
        BagWithin(outer + Bag(tokens), out);
        FreeAll(out);
        InclusionFailed(env, file, ls, a, run, Now(scan, pending));
      }
      r := Done;
    }

    /** Inserts the tokens of a file before the cursor. */
    method Insert(out: seq<Token>, ghost outer: multiset<Token>)
      requires index <= |tokens| && live == outer + Bag(tokens) + Bag(out) && Clean(out) && NoEol(out)
      modifies this`tokens, this`index, this`expanded
      ensures Included(old(tokens), old(index), out, tokens, index) && live == outer + Bag(tokens)
      ensures tokens == old(tokens)[..old(index)] + out + old(tokens)[old(index)..] && index == old(index) + |out|
    {
      hide Bag, Included, Clean, NoEol;
      ghost var ts, i := tokens, index;
      expanded := expanded + 1;
      BagInsert(tokens, index, out);
      InsRange(index, out);
      index := index + |out|;
      IncludedHere(ts, i, out, tokens, index);
    }

    /** The scanner: new tokens for the contents of a file. */
    method Scan(ls: seq<Lexeme>) returns (ts: seq<Token>)
      requires Heap(live, defs, next)
      modifies this`next, this`live
      ensures ts == Allocate(ls, old(next)) && next == old(next) + |ls|
      ensures live == old(live) + Bag(ts) && Heap(live, defs, next)
    {
      hide Heap, Bag;
      BagNone();
      ts := [];
      for i := 0 to |ls|
        invariant ts == Allocate(ls, old(next))[..i] && next == old(next) + i
        invariant live == old(live) + Bag(ts) && Heap(live, defs, next)
      {
        var t := NewToken(ls[i]);
        BagSnoc(ts, t);
        ts := ts + [t];
      }
    }

    /** psi_parser_parse: a file of its own is scanned and preprocessed, given to the parser, and freed. The
        stream pointer is set from then on, to a stream whose tokens are freed; the next file puts it aside
        as that of an including file. */
    method ParseFile(env: Env, ls: seq<Lexeme>, steps: nat, ghost outer: multiset<Token>, ghost text: bool,
                     ghost use: Defs, ghost rank: string -> nat)
      returns (r: Verdict, result: seq<Lexeme>, left: nat, ghost run: Run, ghost stop: Stop)
      requires Heap(live, defs, next) && live == outer
      requires CleanDefs(defs) && CleanEnv(env) && Conditionals.Sound(levels)
      requires text ==> PlainText(defs, use, rank, levels, Start(ls, Now(BEGIN, [])).tokens, steps)
      modifies this
      ensures Answers(env, old(Start(ls, Now(BEGIN, []))), steps, r, run, stop, left)
      ensures r.Done? || r.Failed? ==>
                && Heap(live, defs, next) && live == outer && CleanDefs(defs) && Conditionals.Sound(levels)
                && hasTokens && Shared(Last(run), r) && result == Lexemes(Last(run).tokens)
                && (old(hasTokens) ==> tokens == old(tokens) && index == old(index))
      ensures text ==> r.Done? && FullyExpanded(use, rank, old(Lexemes(Start(ls, Now(BEGIN, [])).tokens)), result)
    {
      hide Heap, Bag, CleanDefs, CleanEnv, PlainText, FullyExpanded, Answers, Start, Stage.Result, Stage.Whole,
        Conditionals.Sound;
      result := [];
      StartsWith(ls, Now(BEGIN, []));
      var scanned := Scan(ls);
      var out;
      r, out, left, run, stop := Process(env, scanned, steps, outer, text, use, rank);
      if r.Done? || r.Failed? {
        result := Lexemes(out);
        FreeAll(out);
      }
    }

    /** psi_cpp_process: both stages over `ts`, on the state shared with the including file, whose
        stream and cursor are put aside. */
    method Process(env: Env, ts: seq<Token>, steps: nat, ghost outer: multiset<Token>, ghost text: bool,
                   ghost use: Defs, ghost rank: string -> nat)
      returns (r: Verdict, out: seq<Token>, left: nat, ghost run: Run, ghost stop: Stop)
      requires Heap(live, defs, next) && live == outer + Bag(ts)
      requires CleanDefs(defs) && CleanEnv(env) && Conditionals.Sound(levels)
      requires text ==> PlainText(defs, use, rank, levels, Stage.Result(ts, next), steps)
      modifies this
      ensures r.Done? || r.Failed? ==>
                && Heap(live, defs, next) && CleanDefs(defs) && Conditionals.Sound(levels)
                && live == outer + Bag(out) && hasTokens
                && (if old(hasTokens) then tokens == old(tokens) && index == old(index) else tokens == out)
      ensures r.Done? ==> Clean(out) && NoEol(out)
      ensures var start := Snap(Stage.Result(ts, old(next)), 0, Stage.Whole(ts, old(next)).next, BEGIN, [],
              old(defs), old(levels), old(clock));
              Answers(env, start, steps, r, run, stop, left)
      ensures r.Done? || r.Failed? ==> out == Last(run).tokens && Shared(Last(run), r)
      ensures text ==> r.Done? && FullyExpanded(use, rank, Lexemes(Stage.Result(ts, old(next))), Lexemes(out))
      decreases steps, 1
    {
      hide Heap, Bag, Clean, CleanDefs, CleanEnv, NoEol, PlainText, Stage.Result, Stage.Whole, Rewrite, FullyExpanded,
        Answers, Conditionals.Sound;
      if text {
        PlainTextFacts(defs, use, rank, levels, Stage.Result(ts, next), steps);
        RewriteFullyExpands(use, rank, Lexemes(Stage.Result(ts, next)));
      }
      var tempTokens, tempIndex, temp := tokens, index, hasTokens;
      tokens, hasTokens := ts, true;
      Stage1(outer);
      StageOneClean(ts, old(next));
      r, left, run, stop := Stage2(env, steps, outer, text, use, rank);
      out := tokens;
      if temp {
        tokens, index := tempTokens, tempIndex;
      }
    }

    /** Macros, conditionals, addresses and requests as at the end of a run. */
    ghost predicate Shared(s: Snap, r: Verdict)
      reads this
    {
      defs == s.defs && levels == s.levels && next == s.next && clock == s.clock + if r.Failed? then 1 else 0
    }

    /** One round of stage 2. */
    method Stage2Round(env: Env, scan: Scan, directive: seq<Token>, steps0: nat, ghost outer: multiset<Token>,
                       ghost text: bool, ghost use: Defs, ghost rank: string -> nat, ghost goal: seq<Lexeme>)
      returns (r: Verdict, s: Scan, pending: seq<Token>, steps: nat, ghost how: How, ghost stop: Stop)
      requires Heap(live, defs, next) && live == outer + Bag(directive) + Bag(tokens) && hasTokens && CleanDefs(defs)
      requires CleanEnv(env)
      requires index < |tokens| && Clean(tokens) && NoEol(tokens[..index]) && Collected(scan, directive)
      requires Conditionals.Sound(levels)
      requires text ==>
                && InText(defs, use, rank, goal, tokens, index, steps0 + 1) && !scan.doCpp && scan.doExpansion
                && levels.skip == 0
      modifies this
      ensures r.Done? || r.Failed? ==>
                Heap(live, defs, next) && live == outer + Bag(pending) + Bag(tokens) && hasTokens && CleanDefs(defs)
      ensures r.Done? || r.Failed? ==> Conditionals.Sound(levels)
      ensures r.Failed? ==> pending == []
      ensures r.Done? ==> index <= |tokens| && Clean(tokens) && NoEol(tokens[..index]) && Collected(s, pending)
      ensures r.Done? ==> Round(env, old(Now(scan, directive)), how, Now(s, pending)) && steps + Extra(how) == steps0
      ensures r.Failed? ==>
                && Rejected(env, old(Now(scan, directive))) && tokens == old(tokens)
                && Shared(old(Now(scan, directive)), r) && steps == steps0
      ensures r.Stuck? || r.OutOfSteps? ==> BreaksAt(env, old(Now(scan, directive)), stop, r, steps0 + 1)
      ensures text ==>
                && r.Done? && InText(defs, use, rank, goal, tokens, index, steps) && !s.doCpp && s.doExpansion
                && levels.skip == 0
                       && defs == old(defs)
      decreases steps0, 6
    {
      hide Heap, Bag, Clean, CleanDefs, CleanEnv, NoEol, InText, Settled, Collected, Round, Rejected, Look, BreaksAt,
        Conditionals.Sound, Extra;
      how, stop, pending, steps := Advanced, AtRound, directive, steps0;
      var current := tokens[index];
      LookKeeps(scan, directive, current.lex.kind);
      LookInText(defs, use, rank, goal, tokens, index, steps0 + 1, text, scan);
      s := LookAt(scan, current.lex.kind);
      if !s.doCpp && (current.Is(Eol) || levels.skip != 0) {
        how := Drop(env, scan, s, directive, outer + Bag(directive), text, use, rank, goal, steps0);
        r := Done;
      } else {
        r, s, pending, steps, how, stop := KeepHere(env, scan, s, directive, steps0, outer, text, use, rank, goal);
      }
    }

    /** The round at a token that is not dropped. */
    method KeepHere(env: Env, scan: Scan, looked: Scan, directive: seq<Token>, steps0: nat,
                    ghost outer: multiset<Token>, ghost text: bool, ghost use: Defs, ghost rank: string -> nat,
                    ghost goal: seq<Lexeme>)
      returns (r: Verdict, s: Scan, pending: seq<Token>, steps: nat, ghost how: How, ghost stop: Stop)
      requires Heap(live, defs, next) && live == outer + Bag(directive) + Bag(tokens) && hasTokens && CleanDefs(defs)
      requires CleanEnv(env)
      requires index < |tokens| && Clean(tokens) && NoEol(tokens[..index]) && Collected(scan, directive)
      requires Conditionals.Sound(levels)
      requires looked == Look(scan, tokens[index].lex.kind) && !Drops(Now(scan, directive))
      requires tokens[index].lex.kind != Hash || !looked.doCpp ==> Collected(looked, directive)
      requires text ==>
                && InText(defs, use, rank, goal, tokens, index, steps0 + 1) && !looked.doCpp && looked.doExpansion
                && levels.skip == 0
      modifies this
      ensures r.Done? || r.Failed? ==>
                Heap(live, defs, next) && live == outer + Bag(pending) + Bag(tokens) && hasTokens && CleanDefs(defs)
      ensures r.Done? || r.Failed? ==> Conditionals.Sound(levels)
      ensures r.Failed? ==> pending == []
      ensures r.Done? ==> index <= |tokens| && Clean(tokens) && NoEol(tokens[..index]) && Collected(s, pending)
      ensures r.Done? ==> Round(env, old(Now(scan, directive)), how, Now(s, pending)) && steps + Extra(how) == steps0
      ensures r.Failed? ==>
                && Rejected(env, old(Now(scan, directive))) && tokens == old(tokens)
                && Shared(old(Now(scan, directive)), r) && steps == steps0
      ensures r.Stuck? || r.OutOfSteps? ==> BreaksAt(env, old(Now(scan, directive)), stop, r, steps0 + 1)
      ensures text ==>
                && r.Done? && InText(defs, use, rank, goal, tokens, index, steps) && !s.doCpp && s.doExpansion
                && levels.skip == 0
                       && defs == old(defs)
      decreases steps0, 5, 2
    {
      hide Heap, Bag, Clean, CleanDefs, CleanEnv, NoEol, InText, Settled, Collected, Round, Rejected, Look, BreaksAt,
        Conditionals.Sound, Extra, Drops;
      s, pending, steps, how, stop := looked, directive, steps0, Advanced, AtRound;
      var current := tokens[index];
      if s.doExpansion && current.Is(Name) && current.lex.text in defs {
        var expandedAny;
        r, expandedAny, steps, how, stop := ExpandHere(env, scan, s, directive, steps, outer + Bag(directive),
            text, use, rank, goal);
        if !r.Done? || expandedAny {
          return;
        }
      }
      if s.doCpp {
        r, s, pending, steps, how, stop := Collect(env, scan, s, directive, steps, outer);
      } else {
        KeptIsNoEol(Now(scan, directive));
        how := Advance(env, scan, s, directive, text, use, rank, goal, steps0);
        r := Done;
      }
    }

    /** Steps over the token at the cursor. */
    method Advance(ghost env: Env, ghost scan: Scan, ghost s: Scan, ghost directive: seq<Token>, ghost text: bool,
                   ghost use: Defs, ghost rank: string -> nat, ghost goal: seq<Lexeme>,
                   ghost steps: nat) returns (ghost how: How)
      requires index < |tokens| && NoEol(tokens[..index]) && !Drops(Now(scan, directive))
      requires !MayExpand(Now(scan, directive))
      requires s == Look(scan, tokens[index].lex.kind) && !s.doCpp
      requires text ==> InText(defs, use, rank, goal, tokens, index, steps + 1) && Quiet(defs, tokens[index])
      modifies this`index
      ensures index == old(index) + 1 && NoEol(tokens[..index])
      ensures Round(env, old(Now(scan, directive)), how, Now(s, directive)) && Extra(how) == 0
      ensures text ==> InText(defs, use, rank, goal, tokens, index, steps)
    {
      hide InText, NoEol, Settled, Round;
      if text {
        TextKeeps(defs, use, rank, goal, tokens, index, steps + 1);
      }
      StepKeeps(tokens, index);
      ghost var a := Now(scan, directive);
      index := index + 1;
      AdvancedRound(env, a, Now(s, directive));
      how := Advanced;
    }

    /** Expands the macro name at the cursor, and what comes up there after that. */
    method ExpandHere(ghost env: Env, ghost scan: Scan, ghost s: Scan, ghost directive: seq<Token>, steps0: nat,
                      ghost outer: multiset<Token>, ghost text: bool, ghost use: Defs, ghost rank: string -> nat,
                      ghost goal: seq<Lexeme>)
      returns (r: Verdict, expandedAny: bool, steps: nat, ghost how: How, ghost stop: Stop)
      requires Heap(live, defs, next) && live == outer + Bag(tokens)
      requires index < |tokens| && Clean(tokens) && CleanDefs(defs) && NoEol(tokens[..index])
      requires !Drops(Now(scan, directive)) && s == Look(scan, tokens[index].lex.kind) && s.doExpansion
      requires tokens[index].Is(Name) && tokens[index].lex.text in defs
      requires text ==> InText(defs, use, rank, goal, tokens, index, steps0 + 1)
      modifies this`tokens, this`index, this`next, this`live, this`expanded
      ensures Heap(live, defs, next) && steps <= steps0 && !r.Failed?
      ensures !r.Stuck? ==> live == outer + Bag(tokens) && index <= |tokens| && Clean(tokens) && NoEol(tokens[..index])
      ensures r.Done? && !expandedAny ==>
                tokens == old(tokens) && index == old(index) && next == old(next) && live == old(live)
                    && !MayExpand(Now(scan, directive)) && how == Advanced && steps == steps0
      ensures r.Done? && expandedAny ==>
                Round(env, old(Now(scan, directive)), how, Now(s, directive)) && steps + Extra(how) == steps0
      ensures !r.Done? ==> BreaksAt(env, old(Now(scan, directive)), stop, r, steps0 + 1)
      ensures text ==> r.Done? && if expandedAny then InText(defs, use, rank, goal, tokens, index, steps)
                                  else steps == steps0 && !Expands(defs, tokens[index].lex.text)
      decreases steps0
    {
      hide Heap, Bag, Clean, CleanDefs, NoEol, InText, Settled, Round, Chain, Effect, Undefined, Scanning, BreaksAt;
      TokensApart(live, defs, next, outer, tokens);
      ghost var a := Now(scan, directive);
      if text {
        TextDecides(defs, use, rank, goal, tokens, index, steps0 + 1);
      }
      ghost var expands := text && Expands(defs, tokens[index].lex.text);
      if expands {
        TextScans(defs, use, rank, goal, tokens, index, steps0 + 1);
      }
      ghost var places;
      r, expandedAny, steps, places := ExpandAll(steps0, outer, expands, use, rank, goal);
      how, stop := Advanced, Expanding(places);
      if !r.Done? {
        ExpandingBreaks(env, a, places, r, steps0 + 1);
      } else if expandedAny {
        how := Expanded(places);
        ExpandedRound(env, a, places, Now(s, directive));
      }
    }

    /** Deletes a line end outside of directives, or a token of skipped text. */
    method Drop(ghost env: Env, ghost scan: Scan, ghost s: Scan, ghost directive: seq<Token>,
                ghost outer: multiset<Token>, ghost text: bool, ghost use: Defs, ghost rank: string -> nat,
                ghost goal: seq<Lexeme>, ghost steps: nat) returns (ghost how: How)
      requires Heap(live, defs, next) && live == outer + Bag(tokens)
      requires index < |tokens| && Clean(tokens) && NoEol(tokens[..index])
      requires Drops(Now(scan, directive)) && s == Look(scan, tokens[index].lex.kind)
      requires text ==> InText(defs, use, rank, goal, tokens, index, steps + 1) && tokens[index].Is(Eol)
      modifies this`tokens, this`index, this`live
      ensures Heap(live, defs, next) && live == outer + Bag(tokens)
      ensures Round(env, old(Now(scan, directive)), how, Now(s, directive)) && Extra(how) == 0
      ensures index <= |tokens| && Clean(tokens) && NoEol(tokens[..index])
      ensures text ==> InText(defs, use, rank, goal, tokens, index, steps)
    {
      hide Heap, Bag, InText, Round;
      ghost var ts, i, a := tokens, index, Now(scan, directive);
      DropCurrent(outer);
      DroppedRound(env, a, Now(s, directive));
      how := Dropped;
      DropKeeps(ts, i, tokens, index);
      if text {
        TextDropsEol(defs, use, rank, goal, ts, i, steps + 1, tokens, index);
      }
    }

    /** Moves the token at the cursor to the directive; a line end stays in the stream, and the
        parser gets the directive with it. */
    method Collect(env: Env, scan: Scan, looked: Scan, directive: seq<Token>, steps: nat, ghost outer: multiset<Token>)
      returns (r: Verdict, s: Scan, pending: seq<Token>, left: nat, ghost how: How, ghost stop: Stop)
      requires Heap(live, defs, next) && live == outer + Bag(directive) + Bag(tokens) && hasTokens && CleanDefs(defs)
      requires CleanEnv(env)
      requires index < |tokens| && Clean(tokens) && NoEol(tokens[..index]) && Collected(scan, directive)
      requires looked == Look(scan, tokens[index].lex.kind) && looked.doCpp
      requires !MayExpand(Now(scan, directive)) && Conditionals.Sound(levels)
      modifies this
      ensures r.Done? || r.Failed? ==>
                Heap(live, defs, next) && live == outer + Bag(pending) + Bag(tokens) && hasTokens && CleanDefs(defs)
      ensures r.Done? || r.Failed? ==> Conditionals.Sound(levels)
      ensures r.Failed? ==> pending == []
      ensures r.Done? ==> index <= |tokens| && Clean(tokens) && NoEol(tokens[..index]) && Collected(s, pending)
      ensures r.Done? ==> Round(env, old(Now(scan, directive)), how, Now(s, pending)) && left + Extra(how) == steps
      ensures r.Failed? ==>
                && Rejected(env, old(Now(scan, directive))) && tokens == old(tokens)
                && Shared(old(Now(scan, directive)), r) && left == steps
      ensures r.Stuck? || r.OutOfSteps? ==> BreaksAt(env, old(Now(scan, directive)), stop, r, steps + 1)
      decreases steps, 5, 1
    {
      hide Heap, Bag, Clean, CleanDefs, CleanEnv, NoEol, Collected, Round, Settled, Rejected, BreaksAt,
        Conditionals.Sound;
      if looked.isEol {
        r, s, left, how, stop := HandOver(env, scan, looked, directive, steps, outer);
        pending := [];
      } else {
        ghost var a := Now(scan, directive);
        ghost var ts, i := tokens, index;
        CollectsDirective(scan, directive, tokens[index]);
        s, left, how, stop, pending := looked, steps, Moved, AtRound, directive + [tokens[index]];
        TokenMoves(outer, directive, tokens, index);
        var _ := DelCur(false);
        DropKeeps(ts, i, tokens, index);
        MovedRound(env, a, Now(s, pending));
        r := Done;
      }
    }

    /** Gives the directive that ends at the cursor to the parser and executes it. */
    method HandOver(env: Env, scan: Scan, looked: Scan, directive: seq<Token>, steps: nat, ghost outer: multiset<Token>)
      returns (r: Verdict, s: Scan, left: nat, ghost how: How, ghost stop: Stop)
      requires Heap(live, defs, next) && live == outer + Bag(directive) + Bag(tokens) && hasTokens && CleanDefs(defs)
      requires CleanEnv(env)
      requires index < |tokens| && Clean(tokens) && NoEol(tokens[..index]) && Collected(scan, directive)
      requires looked == Look(scan, tokens[index].lex.kind) && looked.doCpp && looked.isEol
      requires !MayExpand(Now(scan, directive)) && Conditionals.Sound(levels)
      modifies this
      ensures r.Done? || r.Failed? ==> Conditionals.Sound(levels)
      ensures r.Done? || r.Failed? ==>
                Heap(live, defs, next) && live == outer + Bag([]) + Bag(tokens) && hasTokens && CleanDefs(defs)
      ensures r.Done? ==> index <= |tokens| && Clean(tokens) && NoEol(tokens[..index]) && Collected(s, [])
      ensures r.Done? ==> Round(env, old(Now(scan, directive)), how, Now(s, [])) && left + Extra(how) == steps
      ensures r.Failed? ==>
                && Rejected(env, old(Now(scan, directive))) && tokens == old(tokens)
                && Shared(old(Now(scan, directive)), r) && left == steps
      ensures r.Stuck? || r.OutOfSteps? ==> BreaksAt(env, old(Now(scan, directive)), stop, r, steps + 1)
      decreases steps, 5, 0
    {
      hide Heap, Bag, Clean, CleanDefs, CleanEnv, NoEol, Collected, Included, Round, Effect, Settled, Look, MayExpand,
        Drops, Hands, Rejected,
        BreaksAt, Breaks, Conditionals.Sound;
      ghost var a := Now(scan, directive);
      ghost var ts, i := tokens, index;
      HandsHere(a, looked);
      var pending := directive + [tokens[index]];
      s, how := looked, Moved;
      ghost var inc, d, sub;
      r, left, inc, d, sub, stop := ParserProcess(env, pending, steps, outer + Bag(directive), scan, directive);
      if r.Stuck? || r.OutOfSteps? {
        ExecutingBreaks(env, a, d, sub, stop, r, steps);
        stop := StopFor(d, sub, stop);
        return;
      }
      ghost var b := Now(scan, directive);
      // the line end is popped, it belongs to the stream; the others are freed
      assert pending[..|pending| - 1] == directive;
      pending := pending[..|pending| - 1];
      IncludedKeeps(ts, i, inc, tokens, index);
      FreeRest(outer, pending);
      NothingCollected(s);
      s := s.(doCpp := false);
      if r.Done? {
        how := Executed(d, sub);
        ExecutedRound(env, a, d, sub, b, Now(s, []));
      } else {
        RejectedHere(env, a);
      }
    }

    /** psi_plist_clean: frees the tokens of a directive that was parsed. */
    ghost method FreeRest(outer: multiset<Token>, pending: seq<Token>)
      requires Heap(live, defs, next) && live == outer + Bag(pending) + Bag(tokens)
      modifies this`live
      ensures Heap(live, defs, next) && live == outer + Bag([]) + Bag(tokens)
    {
      hide Heap, Bag;
      BagNone();
      FreeAll(pending);
    }

    /** psi_parser_process on the tokens of a directive. */
    method ParserProcess(env: Env, directive: seq<Token>, steps: nat, ghost outer: multiset<Token>, ghost scan: Scan,
                         ghost pending: seq<Token>)
      returns (r: Verdict, left: nat, ghost inc: seq<Token>, ghost d0: Directive, ghost sub: Option<Run>,
               ghost stop: Stop)
      requires Heap(live, defs, next) && live == outer + Bag(tokens) && hasTokens && index <= |tokens|
      requires CleanDefs(defs) && CleanEnv(env) && Conditionals.Sound(levels)
      modifies this
      ensures r.Done? || r.Failed? ==>
                Heap(live, defs, next) && live == outer + Bag(tokens) && hasTokens && CleanDefs(defs)
      ensures r.Done? || r.Failed? ==> Conditionals.Sound(levels)
      ensures r.Done? || r.Failed? ==> Included(old(tokens), old(index), inc, tokens, index)
      ensures !r.Failed? ==> env.parse(old(clock) + 1, directive, old(defs)) == Some(d0)
      ensures r.Done? ==>
                && Effect(env, d0, old(Now(scan, pending)).(clock := old(clock) + 1), sub, Now(scan, pending))
                && left + Extra(Executed(d0, sub)) == steps
      ensures r.Failed? ==>
                && env.parse(old(clock) + 1, directive, old(defs)).None? && tokens == old(tokens)
                && Shared(old(Now(scan, pending)), r) && left == steps
      ensures r.Stuck? || r.OutOfSteps? ==>
                Breaks(env, d0, old(Now(scan, pending)).(clock := old(clock) + 1), sub, stop, r, steps)
      decreases steps, 4
    {
      hide Heap, Bag, CleanDefs, Included, Effect, Breaks, Conditionals.Sound;
      left, inc, d0, sub, stop := steps, [], NoEffect, None, AtRound;
      NothingIncluded(tokens, index);
      clock := clock + 1;
      var d := env.parse(clock, directive, defs);
      if d.None? {
        return Failed, left, inc, d0, sub, stop;
      }
      d0 := d.value;
      r, left, inc, sub, stop := Exec(env, d.value, steps, outer, scan, pending);
    }

    /** The second pass: executes directives, drops line ends and skipped text and expands macros. */
    method Stage2(env: Env, steps0: nat, ghost outer: multiset<Token>, ghost text: bool, ghost use: Defs,
                  ghost rank: string -> nat)
      returns (r: Verdict, steps: nat, ghost run: Run, ghost stop: Stop)
      requires Heap(live, defs, next) && live == outer + Bag(tokens) && hasTokens && CleanDefs(defs) && CleanEnv(env)
      requires Clean(tokens) && Conditionals.Sound(levels)
      requires text ==> PlainText(defs, use, rank, levels, tokens, steps0)
      modifies this
      ensures Answers(env, old(Snap(tokens, 0, next, BEGIN, [], defs, levels, clock)), steps0, r, run, stop, steps)
      ensures r.Done? || r.Failed? ==> Conditionals.Sound(levels)
      ensures r.Done? || r.Failed? ==>
                Heap(live, defs, next) && live == outer + Bag(tokens) && hasTokens && CleanDefs(defs)
      ensures r.Done? ==> Clean(tokens) && NoEol(tokens)
      ensures r.Done? || r.Failed? ==> tokens == Last(run).tokens && Shared(Last(run), r)
      ensures text ==> r.Done? && defs == old(defs)
                       && Lexemes(tokens) == Rewrite(use, rank, Lexemes(old(tokens)), false)
      decreases steps0, 0
    {
      hide Heap, Bag, Clean, CleanDefs, CleanEnv, NoEol, InText, Collected, Rewrite, PlainText, Round, Rejected,
        BreaksAt, Stops, Crashes, Conditionals.Sound;
      BagNone();
      var pending, s := [], BEGIN;
      steps, stop := steps0, AtRound;
      index, expanded := 0, 0;
      run := Begin(Now(s, pending));
      ghost var goal: seq<Lexeme> := [];
      if text {
        PlainTextFacts(defs, use, rank, levels, tokens, steps0);
        goal := Rewrite(use, rank, Lexemes(tokens), false);
        TextBegins(defs, use, rank, levels, tokens, steps0);
      }
      StageTwoBegins(tokens);
      while index < |tokens|
        invariant Heap(live, defs, next) && live == outer + Bag(pending) + Bag(tokens) && hasTokens && CleanDefs(defs)
        invariant index <= |tokens| && Clean(tokens) && NoEol(tokens[..index]) && Collected(s, pending)
        invariant IsRun(env, run) && Last(run) == Now(s, pending)
        invariant First(run) == old(Snap(tokens, 0, next, BEGIN, [], defs, levels, clock))
        invariant steps + Cost(run) == steps0 && Conditionals.Sound(levels)
        invariant text ==>
                  InText(defs, use, rank, goal, tokens, index, steps) && !s.doCpp && s.doExpansion && levels.skip == 0
        invariant text ==> defs == old(defs)
        decreases steps
      {
        if text {
          TextNeedsSteps(defs, use, rank, goal, tokens, index, steps);
        }
        if steps == 0 {
          StopsAtRound(env, Last(run));
          return OutOfSteps, steps, run, AtRound;
        }
        ghost var how;
        r, s, pending, steps, how, stop := Stage2Round(env, s, pending, steps - 1, outer, text, use, rank, goal);
        if !r.Done? {
          RoundBreaks(env, run, stop, r, steps0);
          return;
        }
        run := Then(run, how, Now(s, pending));
      }
      assert tokens[..index] == tokens;
      if text {
        TextEnds(defs, use, rank, goal, tokens, index, steps);
      }
      FreeRest(outer, pending);
      r := Done;
    }
  }
}
