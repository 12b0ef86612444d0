/** Function-like macros: reading the arguments of a call and substituting them. */
module MacroCalls {
  import opened Options
  import opened Tokens

  /** A stored `#define`: `sig` is None for an object-like macro. */
  datatype Macro = Macro(token: Token, sig: Option<seq<Token>>, body: seq<Token>)

  /** The arguments of a call and the position of its closing parenthesis. */
  datatype Call = Call(args: seq<seq<Token>>, close: nat)

  /** The argument loop from position `i`: `done` arguments are complete, `cur` is being read,
      `depth` parentheses are open. */
  function ScanArgs(ts: seq<Token>, i: nat, count: nat, done: seq<seq<Token>>, cur: seq<Token>, depth: nat)
    : (r: Option<Call>)
    requires |done| < count && depth > 0
    ensures r.Some? ==> i <= r.value.close < |ts| && |r.value.args| == count
    decreases |ts| - i
  {
    if i >= |ts| then None
    else
      var t := ts[i];
      if t.Is(RParen) && depth == 1 then
        if |done| + 1 < count then None else Some(Call(done + [cur], i))
      else if t.Is(Comma) && depth == 1 then
        if |done| + 1 >= count then None else ScanArgs(ts, i + 1, count, done + [cur], [], depth)
      else ScanArgs(ts, i + 1, count, done, cur + [t], DepthAfter(t, depth))
  }

  lemma ScanStep(ts: seq<Token>, i: nat, count: nat, done: seq<seq<Token>>, cur: seq<Token>, depth: nat)
    requires |done| < count && depth > 0
    ensures ScanArgs(ts, i, count, done, cur, depth) ==
            if i >= |ts| then None
            else if ts[i].Is(RParen) && depth == 1 then if |done| + 1 < count then None else Some(Call(done + [cur], i))
            else if ts[i].Is(Comma) && depth == 1 then
              if |done| + 1 >= count then None else ScanArgs(ts, i + 1, count, done + [cur], [], depth)
            else ScanArgs(ts, i + 1, count, done, cur + [ts[i]], DepthAfter(ts[i], depth))
  {
  }

  /** Open parentheses after a token that ends no argument. */
  function DepthAfter(t: Token, depth: nat): nat
    requires t.Is(RParen) ==> depth > 0
  {
    if t.Is(LParen) then depth + 1 else if t.Is(RParen) then depth - 1 else depth
  }

  /** The call of a `count`-parameter macro whose name stands at `at`. */
  function ReadCall(ts: seq<Token>, at: nat, count: nat): (r: Option<Call>)
    requires count > 0
    ensures r.Some? ==> at + 2 <= r.value.close < |ts| && |r.value.args| == count
  {
    if at + 1 < |ts| && ts[at + 1].Is(LParen) then ScanArgs(ts, at + 2, count, [], [], 1) else None
  }

  // ----- what a call looks like -----

  /** `arg`, read with `depth` parentheses open, closes them all and has no comma outside them. */
  predicate Balanced(arg: seq<Token>, depth: nat)
    decreases |arg|
  {
    if arg == [] then depth == 0
    else
      var t := arg[0];
      (t.Is(RParen) || t.Is(Comma) ==> depth > 0) && Balanced(arg[1..], DepthAfter(t, depth))
  }

  /** Arguments written out with the given tokens between them. */
  function Print(args: seq<seq<Token>>, commas: seq<Token>): seq<Token>
    requires |args| == |commas| + 1
  {
    if commas == [] then args[0] else args[0] + [commas[0]] + Print(args[1..], commas[1..])
  }

  ghost predicate WellFormed(args: seq<seq<Token>>, commas: seq<Token>) {
    && |args| == |commas| + 1
    && (forall k :: 0 <= k < |args| ==> Balanced(args[k], 0))
    && (forall k :: 0 <= k < |commas| ==> commas[k].Is(Comma))
  }

  // ----- the reader understands exactly what the printer writes -----

  /** Reading over a balanced piece adds it to the current argument. */
  lemma {:induction false} ScanOver(ts: seq<Token>, i: nat, arg: seq<Token>, count: nat,
                                    done: seq<seq<Token>>, cur: seq<Token>, depth: nat)
    requires |done| < count
    requires i + |arg| <= |ts| && ts[i..i + |arg|] == arg && Balanced(arg, depth)
    ensures ScanArgs(ts, i, count, done, cur, depth + 1) == ScanArgs(ts, i + |arg|, count, done, cur + arg, 1)
    decreases |arg|
  {
    if arg == [] {
      assert cur + arg == cur;
    } else {
      var t := arg[0];
      assert t == ts[i..i + |arg|][0] == ts[i];
      assert ts[i + 1..i + 1 + |arg[1..]|] == ts[i..i + |arg|][1..] == arg[1..];
      ScanOver(ts, i + 1, arg[1..], count, done, cur + [t], DepthAfter(t, depth));
      assert cur + [t] + arg[1..] == cur + arg;
    }
  }

  lemma PrintedParts(ts: seq<Token>, i: nat, args: seq<seq<Token>>, commas: seq<Token>)
    requires WellFormed(args, commas)
    requires i + |Print(args, commas)| < |ts|
    requires ts[i..i + |Print(args, commas)|] == Print(args, commas)
    ensures var n := |args[0]|;
            && i + n < |ts| && ts[i..i + n] == args[0]
            && if commas == [] then |Print(args, commas)| == n
               else var rest := Print(args[1..], commas[1..]);
                 && WellFormed(args[1..], commas[1..]) && |Print(args, commas)| == n + 1 + |rest|
                 && ts[i + n] == commas[0] && ts[i + n + 1..i + n + 1 + |rest|] == rest
  {
    hide Balanced;
    if commas != [] {
      WellFormedRest(args, commas);
      hide WellFormed;
      SliceParts(ts, i, args[0], commas[0], Print(args[1..], commas[1..]));
    }
  }

  lemma WellFormedRest(args: seq<seq<Token>>, commas: seq<Token>)
    requires WellFormed(args, commas) && commas != []
    ensures WellFormed(args[1..], commas[1..])
  {
    hide Balanced;
  }

  lemma SliceParts(ts: seq<Token>, i: nat, a: seq<Token>, c: Token, rest: seq<Token>)
    requires var p := a + [c] + rest; i + |p| <= |ts| && ts[i..i + |p|] == p
    ensures var n := |a|; ts[i..i + n] == a && ts[i + n] == c && ts[i + n + 1..i + n + 1 + |rest|] == rest
  {
    var p, n := a + [c] + rest, |a|;
    assert p[..n] == a && p[n] == c && p[n + 1..] == rest;
    assert ts[i..i + n] == ts[i..i + |p|][..n];
    assert ts[i + n] == ts[i..i + |p|][n];
    assert ts[i + n + 1..i + n + 1 + |rest|] == ts[i..i + |p|][n + 1..];
  }

  /** Completeness: a well-formed argument list followed by a closing parenthesis is read back. */
  lemma {:induction false} ScanPrinted(ts: seq<Token>, i: nat, args: seq<seq<Token>>, commas: seq<Token>,
                                       done: seq<seq<Token>>, count: nat)
    requires WellFormed(args, commas) && |done| + |args| == count
    requires i + |Print(args, commas)| < |ts|
    requires ts[i..i + |Print(args, commas)|] == Print(args, commas)
    requires ts[i + |Print(args, commas)|].Is(RParen)
    ensures ScanArgs(ts, i, count, done, [], 1) == Some(Call(done + args, i + |Print(args, commas)|))
    decreases |args|
  {
    hide Print, Balanced;
    var n := |args[0]|;
    PrintedParts(ts, i, args, commas);
    ScanOver(ts, i, args[0], count, done, [], 0);
    assert [] + args[0] == args[0];
    if commas == [] {
      assert args == [args[0]];
    } else {
      ScanPrinted(ts, i + n + 1, args[1..], commas[1..], done + [args[0]], count);
      assert done + [args[0]] + args[1..] == done + args;
    }
  }

  /** What is still to come, seen from inside the argument loop. */
  ghost predicate Remaining(ts: seq<Token>, i: nat, call: Call, done: seq<seq<Token>>, cur: seq<Token>, depth: nat,
                            tail: seq<Token>, more: seq<seq<Token>>, commas: seq<Token>)
  {
    && |more| == |commas|
    && i <= call.close < |ts| && ts[call.close].Is(RParen)
    && call.args == done + [cur + tail] + more
    && ts[i..call.close] == Print([tail] + more, commas)
    && depth > 0 && Balanced(tail, depth - 1)
    && (forall k :: 0 <= k < |more| ==> Balanced(more[k], 0))
    && (forall k :: 0 <= k < |commas| ==> commas[k].Is(Comma))
  }

  /** Soundness: what was read so far and what is still to come print back to the text. */
  lemma {:induction false} ScanSound(ts: seq<Token>, i: nat, count: nat, done: seq<seq<Token>>, cur: seq<Token>,
                                     depth: nat)
    returns (tail: seq<Token>, more: seq<seq<Token>>, commas: seq<Token>)
    requires |done| < count && depth > 0
    requires ScanArgs(ts, i, count, done, cur, depth).Some?
    ensures Remaining(ts, i, ScanArgs(ts, i, count, done, cur, depth).value, done, cur, depth, tail, more, commas)
    decreases |ts| - i
  {
    var t, call := ts[i], ScanArgs(ts, i, count, done, cur, depth).value;
    if t.Is(RParen) && depth == 1 {
      tail, more, commas := [], [], [];
      assert cur + tail == cur;
    } else if t.Is(Comma) && depth == 1 {
      var tail', more', commas' := ScanSound(ts, i + 1, count, done + [cur], [], depth);
      tail, more, commas := [], [tail'] + more', [t] + commas';
      ScanSoundComma(ts, i, call, done, cur, tail', more', commas');
    } else {
      var tail';
      tail', more, commas := ScanSound(ts, i + 1, count, done, cur + [t], DepthAfter(t, depth));
      tail := [t] + tail';
      ScanSoundToken(ts, i, call, done, cur, depth, tail', more, commas);
    }
  }

  lemma ScanSoundComma(ts: seq<Token>, i: nat, call: Call, done: seq<seq<Token>>, cur: seq<Token>,
                       tail: seq<Token>, more: seq<seq<Token>>, commas: seq<Token>)
    requires i < |ts| && ts[i].Is(Comma)
    requires Remaining(ts, i + 1, call, done + [cur], [], 1, tail, more, commas)
    ensures Remaining(ts, i, call, done, cur, 1, [], [tail] + more, [ts[i]] + commas)
  {
    hide Print;
    var t, more', commas' := ts[i], [tail] + more, [ts[i]] + commas;
    assert cur + [] == cur && [] + tail == tail;
    assert done + [cur] + more' == (done + [cur]) + [tail] + more;
    PrintComma([tail] + more, ts[i], commas);
    assert ts[i..call.close] == [t] + ts[i + 1..call.close];
  }

  lemma PrintComma(args: seq<seq<Token>>, comma: Token, commas: seq<Token>)
    requires |args| == |commas| + 1
    ensures Print([[]] + args, [comma] + commas) == [comma] + Print(args, commas)
  {
    var empty: seq<Token> := [];
    assert ([empty] + args)[1..] == args && ([comma] + commas)[1..] == commas;
    assert [] + [comma] == [comma];
  }

  lemma ScanSoundToken(ts: seq<Token>, i: nat, call: Call, done: seq<seq<Token>>, cur: seq<Token>, depth: nat,
                       tail: seq<Token>, more: seq<seq<Token>>, commas: seq<Token>)
    requires i < |ts| && depth > 0
    requires (ts[i].Is(RParen) || ts[i].Is(Comma)) ==> depth > 1
    requires Remaining(ts, i + 1, call, done, cur + [ts[i]], DepthAfter(ts[i], depth), tail, more, commas)
    ensures Remaining(ts, i, call, done, cur, depth, [ts[i]] + tail, more, commas)
  {
    var t := ts[i];
    assert cur + [t] + tail == cur + ([t] + tail);
    assert ([t] + tail)[1..] == tail;
    assert ts[i..call.close] == [t] + ts[i + 1..call.close];
    if commas != [] {
      assert ([[t] + tail] + more)[1..] == ([tail] + more)[1..];
    }
  }

  /** `call` is how the text after position `at` splits into `count` arguments. */
  ghost predicate IsCall(ts: seq<Token>, at: nat, count: nat, call: Call, commas: seq<Token>) {
    && at + 2 <= call.close < |ts|
    && ts[at + 1].Is(LParen) && ts[call.close].Is(RParen)
    && WellFormed(call.args, commas) && |call.args| == count
    && ts[at + 2..call.close] == Print(call.args, commas)
  }

  /** A call that is read splits its text, one balanced argument per parameter. */
  lemma ReadCallSound(ts: seq<Token>, at: nat, count: nat) returns (commas: seq<Token>)
    requires count > 0 && ReadCall(ts, at, count).Some?
    ensures IsCall(ts, at, count, ReadCall(ts, at, count).value, commas)
  {
    var tail, more;
    tail, more, commas := ScanSound(ts, at + 2, count, [], [], 1);
    var call := ReadCall(ts, at, count).value;
    assert [] + tail == tail;
    assert call.args == [tail] + more;
  }

  /** Every split of the text is the one that is read: the reader is complete and the split unique. */
  lemma ReadCallComplete(ts: seq<Token>, at: nat, count: nat, call: Call, commas: seq<Token>)
    requires count > 0 && IsCall(ts, at, count, call, commas)
    ensures ReadCall(ts, at, count) == Some(call)
  {
    var n := |Print(call.args, commas)|;
    assert |ts[at + 2..call.close]| == n;
    ScanPrinted(ts, at + 2, call.args, commas, [], count);
    var none: seq<seq<Token>> := [];
    assert none + call.args == call.args;
  }

  /** The reader fails exactly on texts that are not such a call; there is one way at most to read one. */
  lemma ReadCallExact(ts: seq<Token>, at: nat, count: nat)
    requires count > 0
    ensures ReadCall(ts, at, count).Some? <==> exists call, commas :: IsCall(ts, at, count, call, commas)
    ensures forall call, commas :: IsCall(ts, at, count, call, commas) ==> ReadCall(ts, at, count) == Some(call)
  {
    forall call, commas | IsCall(ts, at, count, call, commas) ensures ReadCall(ts, at, count) == Some(call) {
      ReadCallComplete(ts, at, count, call, commas);
    }
    if ReadCall(ts, at, count).Some? {
      var commas := ReadCallSound(ts, at, count);
    }
  }

  // ----- substitution -----

  /** The first parameter spelled like `t`, or the number of parameters. */
  function ParamIndex(t: Token, sig: seq<Token>): (s: nat)
    ensures s <= |sig|
    ensures forall k :: 0 <= k < s ==> sig[k].lex.text != t.lex.text
    ensures s < |sig| ==> sig[s].lex.text == t.lex.text
  {
    if sig == [] || sig[0].lex.text == t.lex.text then 0 else 1 + ParamIndex(t, sig[1..])
  }

  /** What body token `t` contributes: the tokens of its argument if it names a parameter. */
  function Chunk(t: Token, sig: seq<Token>, args: seq<seq<Token>>): seq<Token>
    requires |args| == |sig|
  {
    if t.Is(Name) && ParamIndex(t, sig) < |sig| then args[ParamIndex(t, sig)] else [t]
  }

  function Substitute(body: seq<Token>, i: nat, sig: seq<Token>, args: seq<seq<Token>>): seq<Token>
    requires |args| == |sig| && i <= |body|
  {
    if i == 0 then [] else Substitute(body, i - 1, sig, args) + Chunk(body[i - 1], sig, args)
  }

  /** `t` is spelled like parameter `k`, and like none before it. */
  predicate Denotes(t: Token, sig: seq<Token>, k: int) {
    && 0 <= k < |sig| && t.Is(Name) && t.lex.text == sig[k].lex.text
    && forall j :: 0 <= j < k ==> t.lex.text != sig[j].lex.text
  }

  /** What `t` is replaced by: the argument of the parameter it denotes, or nothing else than itself. */
  ghost predicate IsPiece(t: Token, sig: seq<Token>, args: seq<seq<Token>>, piece: seq<Token>)
    requires |args| == |sig|
  {
    && (forall k :: Denotes(t, sig, k) ==> piece == args[k])
    && ((forall k :: !Denotes(t, sig, k)) ==> piece == [t])
  }

  lemma ChunkIsPiece(t: Token, sig: seq<Token>, args: seq<seq<Token>>)
    requires |args| == |sig|
    ensures IsPiece(t, sig, args, Chunk(t, sig, args))
  {
    var p := ParamIndex(t, sig);
    assert t.Is(Name) && p < |sig| ==> Denotes(t, sig, p);
  }

  /** Which argument goes where: the substituted list is one piece for each body token, in order. */
  lemma {:induction false} SubstitutePieces(body: seq<Token>, n: nat, sig: seq<Token>, args: seq<seq<Token>>)
    returns (pieces: seq<seq<Token>>)
    requires |args| == |sig| && n <= |body|
    ensures |pieces| == n && Flat(pieces) == Substitute(body, n, sig, args)
    ensures forall i :: 0 <= i < n ==> IsPiece(body[i], sig, args, pieces[i])
  {
    hide Chunk, IsPiece, Flat;
    pieces := [];
    FlatNone();
    if n > 0 {
      var front := SubstitutePieces(body, n - 1, sig, args);
      var last := Chunk(body[n - 1], sig, args);
      pieces := front + [last];
      FlatAppend(front, last);
      ChunkIsPiece(body[n - 1], sig, args);
    }
  }

  /** Parameters with different names: a name in the body denotes the one that is spelled like it. */
  lemma DenotesBySpelling(t: Token, sig: seq<Token>, k: nat)
    requires k < |sig| && forall i, j :: 0 <= i < j < |sig| ==> sig[i].lex.text != sig[j].lex.text
    ensures Denotes(t, sig, k) <==> t.Is(Name) && t.lex.text == sig[k].lex.text
  {
  }

  /** Every token handed to the expansion is a body token or a token of the call. */
  lemma {:induction false} SubstituteFrom(body: seq<Token>, i: nat, sig: seq<Token>, args: seq<seq<Token>>, t: Token)
    requires |args| == |sig| && i <= |body|
    requires t in Substitute(body, i, sig, args)
    ensures t in body || exists k :: 0 <= k < |args| && t in args[k]
  {
    if i > 0 && t in Substitute(body, i - 1, sig, args) {
      SubstituteFrom(body, i - 1, sig, args, t);
    }
  }

  /** The substituted list is built in a list with room for one element that does not grow while
      it is empty: the first contribution must be a single token. */
  predicate Fits(body: seq<Token>, sig: seq<Token>, args: seq<seq<Token>>)
    requires |args| == |sig|
  {
    forall i :: 0 <= i < |body| && Substitute(body, i, sig, args) == [] ==> |Chunk(body[i], sig, args)| <= 1
  }

  lemma SubstituteNone(body: seq<Token>, sig: seq<Token>, args: seq<seq<Token>>)
    requires |args| == |sig|
    ensures Substitute(body, 0, sig, args) == []
  {
  }

  lemma FitsNext(body: seq<Token>, i: nat, sig: seq<Token>, args: seq<seq<Token>>)
    requires |args| == |sig| && i < |body| && Fits(body, sig, args)
    ensures Substitute(body, i + 1, sig, args) == Substitute(body, i, sig, args) + Chunk(body[i], sig, args)
    ensures Substitute(body, i, sig, args) == [] ==> |Chunk(body[i], sig, args)| <= 1
  {
  }

  /** `#define f(x) x` called with an argument of two tokens does not fit, `#define f(x) (x)` does. */
  lemma FitsExamples(x: Token, lp: Token, rp: Token, a: Token, b: Token)
    requires x.Is(Name) && lp.Is(LParen) && rp.Is(RParen)
    ensures !Fits([x], [x], [[a, b]])
    ensures Fits([lp, x, rp], [x], [[a, b]])
  {
    assert Substitute([x], 0, [x], [[a, b]]) == [] && Chunk([x][0], [x], [[a, b]]) == [a, b];
    var body := [lp, x, rp];
    assert Chunk(body[0], [x], [[a, b]]) == [lp];
    forall i | 0 <= i < 3 && Substitute(body, i, [x], [[a, b]]) == []
      ensures |Chunk(body[i], [x], [[a, b]])| <= 1
    {
      SubstituteGrows(body, 1, i, [x], [[a, b]]);
    }
  }

  lemma {:induction false} SubstituteGrows(body: seq<Token>, i: nat, j: nat, sig: seq<Token>, args: seq<seq<Token>>)
    requires |args| == |sig| && j <= |body| && i <= |body|
    ensures i <= j ==> |Substitute(body, i, sig, args)| <= |Substitute(body, j, sig, args)|
  {
    if i < j {
      SubstituteGrows(body, i, j - 1, sig, args);
    }
  }

  // ----- cutting a call out of the stream -----

  /** The stream and the cursor after the call from `start` to `close` was replaced by `out`, as
      the source does it: the cursor is pulled back if nothing follows the call. */
  function Replaced(ts: seq<Token>, start: nat, close: nat, out: seq<Token>): (r: (seq<Token>, nat))
    requires start <= close < |ts|
    ensures |r.0| == |ts| - (close + 1 - start) + |out|
  {
    var rest := ts[..start] + ts[close + 1..];
    var at := if start < |rest| || start == 0 then start else start - 1;
    var ts' := rest[..at] + out + rest[at..];
    (ts', if start < |ts'| then start else at)
  }

  /** The call is replaced in place, with the cursor at its start, exactly if a token follows the
      call or it began the stream; otherwise the expansion lands before the preceding token. */
  lemma ReplacedInPlace(ts: seq<Token>, start: nat, close: nat, out: seq<Token>)
    requires start <= close < |ts|
    requires forall i, j :: 0 <= i < |ts| && 0 <= j < |out| ==> ts[i].id != out[j].id
    ensures Replaced(ts, start, close, out) == (ts[..start] + out + ts[close + 1..], start)
       <==> close + 1 < |ts| || start == 0
    ensures close + 1 == |ts| && start > 0 ==>
              && Replaced(ts, start, close, out).0 == ts[..start - 1] + out + [ts[start - 1]]
              && Replaced(ts, start, close, out).1 == if out == [] then start - 1 else start
  {
    var rest := ts[..start] + ts[close + 1..];
    var r := Replaced(ts, start, close, out);
    if close + 1 < |ts| || start == 0 {
      assert rest[..start] == ts[..start] && rest[start..] == ts[close + 1..];
    } else if out != [] {
      assert rest == ts[..start];
      assert r.0[start - 1] == out[0];
      assert (ts[..start] + out + ts[close + 1..])[start - 1] == ts[start - 1];
    }
  }
}
