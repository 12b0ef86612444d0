/** What stage 1 makes of each scanned token, by looking back and ahead from it. */
module StageOneExact {
  import opened Tokens
  import opened StageOne

  // ----- lines -----

  const BLANKS := {Whitespace, Comment, Attribute}

  /** Between `i` and `q` there are tokens of the types `ks` only. */
  predicate Only(input: seq<Token>, i: int, q: nat, ks: set<Kind>) {
    forall j :: 0 <= j && i < j < q && j < |input| ==> input[j].lex.kind in ks
  }

  /** A backslash that is not escaped itself stands before `q`, comments and attributes aside. */
  predicate Escaped(input: seq<Token>, q: nat)
    requires q <= |input|
  {
    q > 0 && if input[q - 1].Is(BSlash) then !Escaped(input, q - 1)
             else input[q - 1].lex.kind in {Comment, Attribute} && Escaped(input, q - 1)
  }

  /** The line end `e` is taken out together with the backslash before it. */
  predicate Joined(input: seq<Token>, e: nat)
    requires e < |input|
  {
    input[e].Is(Eol) && Escaped(input, e)
  }

  /** A line begins after `e`, which is its line end or, before the first line, -1. */
  predicate Ends(input: seq<Token>, e: int)
    requires -1 <= e < |input|
  {
    e == -1 || (input[e].Is(Eol) && !Joined(input, e))
  }

  /** From the beginning of the line up to `q` there are blanks, DEFINE and NAME only. */
  ghost predicate LineStart(input: seq<Token>, q: nat)
    requires q <= |input|
  {
    exists e :: -1 <= e < q && Ends(input, e) && Only(input, e, q, BLANKS + {Define, Name})
  }

  // ----- looking back for HASH, DEFINE and NAME -----

  ghost predicate HashBefore(input: seq<Token>, q: nat)
    requires q <= |input|
  {
    exists h: nat :: h < q && input[h].Is(Hash) && LineStart(input, h)
      && Only(input, h, q, BLANKS + {Eol, Hash, Name})
  }

  ghost predicate DefineBefore(input: seq<Token>, q: nat)
    requires q <= |input|
  {
    exists d: nat :: d < q && input[d].Is(Define) && HashBefore(input, d)
      && Only(input, d, q, BLANKS + {Eol, Hash, Define})
  }

  /** White space after the NAME separates it from what follows. */
  ghost predicate NameBefore(input: seq<Token>, q: nat)
    requires q <= |input|
  {
    exists n: nat :: n < q && input[n].Is(Name) && DefineBefore(input, n)
      && Only(input, n, q, {Comment, Attribute, Eol, Hash, Define, Name})
  }

  /** The parenthesis at `q` gets a marker. */
  ghost predicate Marked(input: seq<Token>, q: nat)
    requires q < |input|
  {
    input[q].Is(LParen) && NameBefore(input, q)
  }

  lemma OnlyStep(input: seq<Token>, i: int, q: nat, ks: set<Kind>)
    requires i < q < |input|
    ensures Only(input, i, q + 1, ks) <==> Only(input, i, q, ks) && input[q].lex.kind in ks
  {
  }

  lemma LineStartStep(input: seq<Token>, q: nat)
    requires q < |input|
    ensures LineStart(input, q + 1)
            <==> (input[q].Is(Eol) && !Joined(input, q))
                 || (input[q].lex.kind in BLANKS + {Define, Name} && LineStart(input, q))
  {
    hide Only, Escaped, Joined;
    var ks := BLANKS + {Define, Name};
    OnlyNone(input, q, ks);
    if LineStart(input, q + 1) {
      var e :| -1 <= e < q + 1 && Ends(input, e) && Only(input, e, q + 1, ks);
      if e < q {
        OnlyStep(input, e, q, ks);
      }
    }
    if LineStart(input, q) && input[q].lex.kind in ks {
      var e :| -1 <= e < q && Ends(input, e) && Only(input, e, q, ks);
      OnlyStep(input, e, q, ks);
    }
    assert input[q].Is(Eol) && !Joined(input, q) ==> Ends(input, q);
  }

  lemma OnlyNone(input: seq<Token>, q: nat, ks: set<Kind>)
    ensures Only(input, q, q + 1, ks)
  {
  }

  lemma HashBeforeStep(input: seq<Token>, q: nat)
    requires q < |input|
    ensures HashBefore(input, q + 1)
            <==> (input[q].Is(Hash) && LineStart(input, q))
                 || (input[q].lex.kind in BLANKS + {Eol, Hash, Name} && HashBefore(input, q))
  {
    hide Only, LineStart;
    var ks := BLANKS + {Eol, Hash, Name};
    OnlyNone(input, q, ks);
    if HashBefore(input, q + 1) {
      var h: nat :| h < q + 1 && input[h].Is(Hash) && LineStart(input, h) && Only(input, h, q + 1, ks);
      if h < q {
        OnlyStep(input, h, q, ks);
      }
    }
    if HashBefore(input, q) && input[q].lex.kind in ks {
      var h: nat :| h < q && input[h].Is(Hash) && LineStart(input, h) && Only(input, h, q, ks);
      OnlyStep(input, h, q, ks);
    }
  }

  lemma DefineBeforeStep(input: seq<Token>, q: nat)
    requires q < |input|
    ensures DefineBefore(input, q + 1)
            <==> (input[q].Is(Define) && HashBefore(input, q))
                 || (input[q].lex.kind in BLANKS + {Eol, Hash, Define} && DefineBefore(input, q))
  {
    hide Only, HashBefore;
    var ks := BLANKS + {Eol, Hash, Define};
    OnlyNone(input, q, ks);
    if DefineBefore(input, q + 1) {
      var d: nat :| d < q + 1 && input[d].Is(Define) && HashBefore(input, d) && Only(input, d, q + 1, ks);
      if d < q {
        OnlyStep(input, d, q, ks);
      }
    }
    if DefineBefore(input, q) && input[q].lex.kind in ks {
      var d: nat :| d < q && input[d].Is(Define) && HashBefore(input, d) && Only(input, d, q, ks);
      OnlyStep(input, d, q, ks);
    }
  }

  lemma NameBeforeStep(input: seq<Token>, q: nat)
    requires q < |input|
    ensures NameBefore(input, q + 1)
            <==> (input[q].Is(Name) && DefineBefore(input, q))
                 || (input[q].lex.kind in {Comment, Attribute, Eol, Hash, Define, Name} && NameBefore(input, q))
  {
    hide Only, DefineBefore;
    var ks := {Comment, Attribute, Eol, Hash, Define, Name};
    OnlyNone(input, q, ks);
    if NameBefore(input, q + 1) {
      var n: nat :| n < q + 1 && input[n].Is(Name) && DefineBefore(input, n) && Only(input, n, q + 1, ks);
      if n < q {
        OnlyStep(input, n, q, ks);
      }
    }
    if NameBefore(input, q) && input[q].lex.kind in ks {
      var n: nat :| n < q && input[n].Is(Name) && DefineBefore(input, n) && Only(input, n, q, ks);
      OnlyStep(input, n, q, ks);
    }
  }

  lemma EscapedStep(input: seq<Token>, q: nat)
    requires q < |input|
    ensures Escaped(input, q + 1)
            <==> if input[q].Is(BSlash) then !Escaped(input, q)
                 else input[q].lex.kind in {Comment, Attribute} && Escaped(input, q)
  {
  }

  // ----- the flags -----

  /** What the flags say before token `p`. */
  ghost predicate Tells(input: seq<Token>, p: nat, f: Flags)
    requires p <= |input|
  {
    && f.esc == Escaped(input, p) && f.eol == LineStart(input, p)
    && f.hash == HashBefore(input, p) && f.define == DefineBefore(input, p) && f.name == NameBefore(input, p)
    && !(f.name && f.ws) && !(f.esc && (f.ws || f.eol || f.hash || f.define || f.name))
  }

  /** What one more token does to the flags. */
  lemma FeedFlags(s: Pass, t: Token)
    requires s.f.esc ==> s.out != [] && !s.f.ws && !s.f.eol && !s.f.hash && !s.f.define && !s.f.name
    ensures var f, g, k := s.f, Feed(s, t).f, t.lex.kind;
            && g.esc == (if k == BSlash then !f.esc else k in {Comment, Attribute} && f.esc)
            && g.eol == ((k == Eol && !f.esc) || (k in BLANKS + {Define, Name} && f.eol))
            && g.hash == ((k == Hash && f.eol) || (k in BLANKS + {Eol, Hash, Name} && f.hash))
            && g.define == ((k == Define && f.hash) || (k in BLANKS + {Eol, Hash, Define} && f.define))
            && g.name == ((k == Name && f.define) || (k in {Comment, Attribute, Eol, Hash, Define, Name} && f.name))
            && (g.ws ==> k in BLANKS && (f.ws || k == Whitespace))
  {
    hide Marker;
    var k := t.lex.kind;
    if k in {Comment, Attribute} || Spliced(s, k) || k == Whitespace {
    } else if NeedsMarker(s.f, k) {
    } else {
      NoteFlags(Escape(s.f, k), k);
    }
  }

  lemma NoteFlags(f: Flags, k: Kind)
    requires !Blank(k)
    ensures var g := Note(f, k);
            && g.esc == f.esc && !g.ws
            && g.eol == (k == Eol || (k in {Define, Name} && f.eol))
            && g.hash == ((k == Hash && f.eol) || (k in {Eol, Hash, Name} && f.hash))
            && g.define == ((k == Define && f.hash) || (k in {Eol, Hash, Define} && f.define))
            && g.name == ((k == Name && f.define) || (k in {Eol, Hash, Define, Name} && f.name))
  {
    match k
    case Eol =>
    case Hash =>
    case Define =>
    case Name =>
    case _ =>
  }

  lemma TellsStep(input: seq<Token>, p: nat, s: Pass)
    requires p < |input| && Tells(input, p, s.f) && (s.f.esc ==> s.out != [])
    ensures Tells(input, p + 1, Feed(s, input[p]).f)
    ensures Spliced(s, input[p].lex.kind) <==> Joined(input, p)
    ensures input[p].Is(LParen) ==> (NeedsMarker(s.f, LParen) <==> Marked(input, p))
  {
    hide Escaped, LineStart, HashBefore, DefineBefore, NameBefore, Feed;
    EscapedStep(input, p);
    LineStartStep(input, p);
    HashBeforeStep(input, p);
    DefineBeforeStep(input, p);
    NameBeforeStep(input, p);
    FeedFlags(s, input[p]);
  }

  lemma TellsBegins(input: seq<Token>)
    ensures Tells(input, 0, INITIAL)
  {
    assert Ends(input, -1) && Only(input, -1, 0, BLANKS + {Define, Name});
  }

  /** The flags tell what stands before the cursor. */
  lemma {:induction false} FlagsExactly(input: seq<Token>, p: nat, next: nat)
    requires p <= |input|
    ensures Tells(input, p, PassTo(input, p, next).f)
  {
    hide Tells, Feed;
    if p == 0 {
      TellsBegins(input);
    } else {
      FlagsExactly(input, p - 1, next);
      PassGood(input, p - 1, next);
      TellsStep(input, p - 1, PassTo(input, p - 1, next));
    }
  }

  // ----- what is left -----

  /** A marker stands where its parenthesis stands, is no white space, and masks the first character of its text. */
  lemma MarkerMasks(id: nat, t: Token)
    ensures var m := Marker(id, t);
            && m.id == id && m.Is(NoWhitespace) && m.lex.col == t.lex.col && m.lex.line == t.lex.line
            && m.lex.file == t.lex.file && |m.lex.text| == |t.lex.text|
            && (t.lex.text != "" ==> m.lex.text[0] == '\U{A0}' && m.lex.text[1..] == t.lex.text[1..])
  {
  }

  /** Up to `end` a line end follows the backslash `b`, which joins the lines. */
  ghost predicate Joins(input: seq<Token>, b: nat, end: nat)
    requires b < |input|
  {
    && input[b].Is(BSlash) && !Escaped(input, b)
    && exists e :: b < e < end && e < |input| && input[e].Is(Eol) && Only(input, b, e, {Comment, Attribute})
  }

  ghost function Marks(input: seq<Token>, q: nat): nat
    requires q <= |input|
  {
    if q == 0 then 0 else Marks(input, q - 1) + if Marked(input, q - 1) then 1 else 0
  }

  /** What token `q` becomes, of the text up to `end`: nothing, itself, or itself behind a marker. */
  ghost function Piece(input: seq<Token>, q: nat, end: nat, next: nat): seq<Token>
    requires q < |input|
  {
    if Blank(input[q].lex.kind) || Joined(input, q) || Joins(input, q, end) then []
    else (if Marked(input, q) then [Marker(next + Marks(input, q), input[q])] else []) + [input[q]]
  }

  ghost function Written(input: seq<Token>, q: nat, end: nat, next: nat): seq<Token>
    requires q <= |input|
  {
    if q == 0 then [] else Written(input, q - 1, end, next) + Piece(input, q - 1, end, next)
  }

  /** One more token joins no lines unless it is an escaped line end. */
  lemma JoinsLater(input: seq<Token>, b: nat, p: nat)
    requires b < p < |input| && Joins(input, b, p + 1)
    ensures Joins(input, b, p) || (Joined(input, p) && Only(input, b, p, {Comment, Attribute}))
  {
    var e :| b < e < p + 1 && input[e].Is(Eol) && Only(input, b, e, {Comment, Attribute});
    if e == p {
      EscapedAfter(input, b, p);
    }
  }

  lemma {:induction false} EscapedAfter(input: seq<Token>, b: nat, p: nat)
    requires b < p <= |input| && input[b].Is(BSlash) && !Escaped(input, b) && Only(input, b, p, {Comment, Attribute})
    ensures Escaped(input, p)
  {
    if b + 1 < p {
      EscapedAfter(input, b, p - 1);
    }
  }

  lemma {:induction false} EscapedBy(input: seq<Token>, p: nat) returns (b: nat)
    requires p <= |input| && Escaped(input, p)
    ensures b < p && input[b].Is(BSlash) && !Escaped(input, b) && Only(input, b, p, {Comment, Attribute})
  {
    b := p - 1;
    if !input[b].Is(BSlash) {
      b := EscapedBy(input, p - 1);
    }
  }

  lemma {:induction false} WrittenSame(input: seq<Token>, q: nat, p: nat, next: nat)
    requires q <= p < |input|
    requires forall b :: 0 <= b < q ==> (Joins(input, b, p + 1) <==> Joins(input, b, p))
    ensures Written(input, q, p + 1, next) == Written(input, q, p, next)
  {
    hide Joins, Marked, Marker;
    if q > 0 {
      WrittenSame(input, q - 1, p, next);
    }
  }

  lemma JoinsMore(input: seq<Token>, b: nat, p: nat)
    requires b < |input| && Joins(input, b, p)
    ensures Joins(input, b, p + 1)
  {
  }

  /** Comments and attributes leave nothing. */
  lemma {:induction false} WrittenGap(input: seq<Token>, b: nat, p: nat, end: nat, next: nat)
    requires b < p <= |input| && Only(input, b, p, {Comment, Attribute})
    ensures Written(input, p, end, next) == Written(input, b + 1, end, next)
  {
    hide Written, Joins, Joined, Marked, Marker;
    if b + 1 < p {
      WrittenGap(input, b, p - 1, end, next);
      WrittenPiece(input, p - 1, end, next);
      assert input[p - 1].lex.kind in {Comment, Attribute};
    }
  }

  lemma StepWritten(input: seq<Token>, p: nat, next: nat, s: Pass)
    requires p < |input| && Tells(input, p, s.f) && (s.f.esc ==> s.out != [])
    requires s.out == Written(input, p, p, next) && s.next == next + Marks(input, p)
    ensures var u := Feed(s, input[p]);
            u.out == Written(input, p + 1, p + 1, next) && u.next == next + Marks(input, p + 1)
  {
    hide Tells, Joined, Joins, Marked, Marker, Written, Marks, Piece, Escape, Note;
    TellsStep(input, p, s);
    FeedLeaves(s, input[p]);
    if Joined(input, p) {
      WrittenJoined(input, p, next);
    } else {
      WrittenKept(input, p, next);
    }
    WrittenNext(input, p, next);
  }

  /** What one more token leaves. */
  lemma FeedLeaves(s: Pass, t: Token)
    ensures var u, k := Feed(s, t), t.lex.kind;
            && (!Spliced(s, k) ==> u.out == s.out + if Blank(k) then []
                                                     else if NeedsMarker(s.f, k) then [Marker(s.next, t), t] else [t])
            && (Spliced(s, k) ==> u.out == s.out[..|s.out| - 1])
            && u.next == s.next + if NeedsMarker(s.f, k) then 1 else 0
  {
    hide Escape, Note, Marker;
  }

  lemma WrittenNext(input: seq<Token>, p: nat, next: nat)
    requires p < |input|
    ensures Marks(input, p + 1) == Marks(input, p) + if Marked(input, p) then 1 else 0
    ensures Marked(input, p) ==> input[p].Is(LParen)
    ensures !Joined(input, p) && !Joins(input, p, p + 1) ==>
              Written(input, p + 1, p + 1, next) == Written(input, p, p + 1, next)
                + if Blank(input[p].lex.kind) then []
                  else if Marked(input, p) then [Marker(next + Marks(input, p), input[p]), input[p]] else [input[p]]
  {
    hide Joins, NameBefore, Marker, Joined;
  }

  lemma WrittenJoined(input: seq<Token>, p: nat, next: nat)
    requires p < |input| && Joined(input, p)
    ensures var out := Written(input, p, p, next); out != [] && Written(input, p + 1, p + 1, next) == out[..|out| - 1]
  {
    hide Joins, Joined, Marked, Marker, Escaped, Written, Piece;
    var b := JoinedBackslash(input, p, next);
    forall c | 0 <= c < b ensures Joins(input, c, p + 1) <==> Joins(input, c, p) {
      if Joins(input, c, p) {
        JoinsMore(input, c, p);
      } else if Joins(input, c, p + 1) {
        JoinsLater(input, c, p);
      }
    }
    WrittenSame(input, b, p, next);
    WrittenGap(input, b, p, p, next);
    WrittenGap(input, b, p, p + 1, next);
    WrittenPiece(input, b, p, next);
    WrittenPiece(input, b, p + 1, next);
    WrittenPiece(input, p, p + 1, next);
  }

  lemma JoinedBackslash(input: seq<Token>, p: nat, next: nat) returns (b: nat)
    requires p < |input| && Joined(input, p)
    ensures b < p && input[b].Is(BSlash) && Only(input, b, p, {Comment, Attribute}) && Joins(input, b, p + 1)
    ensures Piece(input, b, p, next) == [input[b]] && Piece(input, b, p + 1, next) == []
    ensures Piece(input, p, p + 1, next) == []
  {
    b := EscapedBy(input, p);
    assert Joins(input, b, p + 1) && !Joins(input, b, p);
    hide Joins, Escaped;
  }

  lemma WrittenPiece(input: seq<Token>, q: nat, end: nat, next: nat)
    requires q < |input|
    ensures Written(input, q + 1, end, next) == Written(input, q, end, next) + Piece(input, q, end, next)
  {
  }

  lemma WrittenKept(input: seq<Token>, p: nat, next: nat)
    requires p < |input| && !Joined(input, p)
    ensures Written(input, p, p + 1, next) == Written(input, p, p, next) && !Joins(input, p, p + 1)
  {
    forall c | 0 <= c < p ensures Joins(input, c, p + 1) <==> Joins(input, c, p) {
      if Joins(input, c, p) {
        JoinsMore(input, c, p);
      } else if Joins(input, c, p + 1) {
        JoinsLater(input, c, p);
      }
    }
    WrittenSame(input, p, p, next);
  }

  lemma {:induction false} PassWritten(input: seq<Token>, p: nat, next: nat)
    requires p <= |input|
    ensures PassTo(input, p, next).out == Written(input, p, p, next)
    ensures PassTo(input, p, next).next == next + Marks(input, p)
  {
    hide Feed, Marked, Tells, Piece;
    if p > 0 {
      PassWritten(input, p - 1, next);
      PassGood(input, p - 1, next);
      FlagsExactly(input, p - 1, next);
      StepWritten(input, p - 1, next, PassTo(input, p - 1, next));
    }
  }

  /** The last line end joined lines, or the one before it did and another one followed. */
  predicate JoinedAtEnd(input: seq<Token>) {
    var n := |input|;
    (n >= 1 && Joined(input, n - 1)) || (n >= 2 && Joined(input, n - 2) && input[n - 1].Is(Eol))
  }

  /** Stage 1 leaves of each token exactly its piece; after lines were joined at the very end it goes on
      to take out pairs of backslash and line end that are last. */
  lemma ResultExactly(input: seq<Token>, next: nat)
    ensures var n := |input|;
            var all := Written(input, n, n, next);
            Result(input, next) == if JoinedAtEnd(input) then StripEnd(all) else all
  {
    var n := |input|;
    PassWritten(input, n, next);
    if n >= 1 {
      JoinedExactly(input, n - 1, next);
    }
    if n >= 2 {
      JoinedExactly(input, n - 2, next);
    }
    hide PassTo, Joined, Spliced, Written, StripEnd;
  }

  lemma JoinedExactly(input: seq<Token>, p: nat, next: nat)
    requires p < |input|
    ensures Spliced(PassTo(input, p, next), input[p].lex.kind) <==> Joined(input, p)
  {
    FlagsExactly(input, p, next);
    PassGood(input, p, next);
    TellsStep(input, p, PassTo(input, p, next));
  }

  /** Where the piece of a token stands: a marker is put before a parenthesis if and only if NAME, DEFINE and HASH,
      at the start of a line, are before it. */
  lemma {:induction false} PieceAt(input: seq<Token>, q: nat, p: nat, end: nat, next: nat)
    requires q < p <= |input|
    ensures var at, piece := |Written(input, q, end, next)|, Piece(input, q, end, next);
            at + |piece| <= |Written(input, p, end, next)| && Written(input, p, end, next)[at..at + |piece|] == piece
  {
    hide Piece;
    if q < p - 1 {
      PieceAt(input, q, p - 1, end, next);
    }
  }
}
