/** Which tokens are allocated: each exactly once, each with its own address. */
module Ownership {
  import opened Tokens
  import opened MacroCalls
  import opened Expansion

  function MacroTokens(m: Macro): seq<Token> {
    [m.token] + (if m.sig.Some? then m.sig.value else []) + m.body
  }

  /** `live` are the allocated tokens outside the macro table; `next` is the next free address. */
  ghost predicate Heap(live: multiset<Token>, defs: Defs, next: nat) {
    && (forall t :: t in live ==> live[t] == 1 && t.id < next)
    && (forall t, u :: t in live && u in live && t.id == u.id ==> t == u)
    && (forall n, t :: n in defs && t in MacroTokens(defs[n]) ==> t.id < next)
    && (forall n, t, u :: n in defs && t in MacroTokens(defs[n]) && u in live ==> t.id != u.id)
  }

  lemma HeapShrinks(live: multiset<Token>, live': multiset<Token>, defs: Defs, next: nat)
    requires Heap(live, defs, next) && live' <= live
    ensures Heap(live', defs, next)
  {
    forall t | t in live' ensures live'[t] == 1 && t in live {
      assert live'[t] <= live[t];
    }
  }

  lemma HeapGrows(live: multiset<Token>, defs: Defs, next: nat, t: Token)
    requires Heap(live, defs, next) && t.id >= next
    ensures t !in live && Heap(live + multiset{t}, defs, t.id + 1)
  {
  }

  /** The tokens of a list. */
  ghost function Bag(ts: seq<Token>): multiset<Token> {
    multiset(ts)
  }

  lemma BagNone()
    ensures Bag([]) == multiset{}
  {
  }

  lemma BagSnoc(ts: seq<Token>, t: Token)
    ensures Bag(ts + [t]) == Bag(ts) + multiset{t}
  {
  }

  lemma BagConcat(a: seq<Token>, b: seq<Token>)
    ensures Bag(a + b) == Bag(a) + Bag(b)
  {
  }

  lemma BagIn(ts: seq<Token>, i: nat, live: multiset<Token>)
    requires i < |ts| && Bag(ts) <= live
    ensures ts[i] in live
  {
    assert ts[i] in multiset(ts);
  }

  /** The last element and the others. */
  lemma BagLast(ts: seq<Token>)
    requires ts != []
    ensures Bag(ts) == Bag(ts[..|ts| - 1]) + multiset{ts[|ts| - 1]}
  {
    assert ts == ts[..|ts| - 1] + [ts[|ts| - 1]];
  }

  lemma BagSwapLast(live: multiset<Token>, ts: seq<Token>, t: Token)
    requires ts != []
    requires Bag(ts) <= live
    ensures live - multiset{ts[|ts| - 1]} + multiset{t} == live - Bag(ts) + Bag(ts[..|ts| - 1] + [t])
  {
    BagLast(ts);
    BagSnoc(ts[..|ts| - 1], t);
  }

  /** Cutting a slice out of a list cuts its tokens out of the tokens of the list. */
  lemma BagCut(ts: seq<Token>, lo: nat, hi: nat)
    requires lo <= hi <= |ts|
    ensures Bag(ts) == Bag(ts[..lo]) + Bag(ts[lo..hi]) + Bag(ts[hi..])
    ensures Bag(ts[..lo] + ts[hi..]) == Bag(ts) - Bag(ts[lo..hi])
    ensures Bag(ts[lo..hi]) <= Bag(ts)
  {
    assert ts == ts[..lo] + ts[lo..hi] + ts[hi..];
  }

  /** The same with other tokens (`outer`) around. */
  lemma BagCutFrom(outer: multiset<Token>, ts: seq<Token>, lo: nat, hi: nat)
    requires lo <= hi <= |ts|
    ensures Bag(ts) <= outer + Bag(ts)
    ensures outer + Bag(ts) - Bag(ts[lo..hi]) == outer + Bag(ts[..lo] + ts[hi..])
  {
    BagCut(ts, lo, hi);
  }

  lemma BagWithin(outer: multiset<Token>, ts: seq<Token>)
    ensures Bag(ts) <= outer + Bag(ts)
  {
  }

  /** No token of the stream is the name token of a stored macro. */
  lemma TokensApart(live: multiset<Token>, defs: Defs, next: nat, outer: multiset<Token>, ts: seq<Token>)
    requires Heap(live, defs, next) && live == outer + Bag(ts)
    ensures forall i, n :: 0 <= i < |ts| && n in defs ==> defs[n].token.id != ts[i].id
  {
    forall i, n | 0 <= i < |ts| && n in defs ensures defs[n].token.id != ts[i].id {
      BagWithin(outer, ts);
      BagIn(ts, i, live);
      assert defs[n].token in MacroTokens(defs[n]);
    }
  }

  lemma BagDelFrom(outer: multiset<Token>, ts: seq<Token>, i: nat)
    requires i < |ts|
    ensures ts[i] in outer + Bag(ts)
    ensures outer + Bag(ts) - multiset{ts[i]} == outer + Bag(ts[..i] + ts[i + 1..])
  {
    BagCutFrom(outer, ts, i, i + 1);
    assert ts[i..i + 1] == [ts[i]];
    assert Bag([ts[i]]) == multiset{ts[i]};
    BagIn(ts, i, Bag(ts));
  }

  lemma BagInsFrom(outer: multiset<Token>, ts: seq<Token>, at: nat, t: Token)
    requires at <= |ts|
    ensures outer + Bag(ts) + multiset{t} == outer + Bag(ts[..at] + [t] + ts[at..])
  {
    BagInsert(ts, at, [t]);
  }

  lemma BagInsert(ts: seq<Token>, at: nat, eles: seq<Token>)
    requires at <= |ts|
    ensures Bag(ts[..at] + eles + ts[at..]) == Bag(ts) + Bag(eles)
  {
    assert ts == ts[..at] + ts[at..];
  }

  /** Replacing the tokens `gone` by `come` turns the allocated tokens `before` into `live`. */
  ghost predicate Balances(live: multiset<Token>, gone: seq<Token>, before: multiset<Token>, come: seq<Token>) {
    live + Bag(gone) == before + Bag(come)
  }
}
