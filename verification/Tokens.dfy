/** Tokens as the scanner produces them and the preprocessor moves them around. */
module Tokens {

  /** The token types the preprocessor distinguishes; every other type is `Other`. */
  datatype Kind =
    | Eol | Hash | Paste | LParen | RParen | Comma | Name | QuotedString
    | Define | Defined | Ifdef | Ifndef | Undef
    | Whitespace | NoWhitespace | Comment | Attribute | BSlash
    | Other(code: int)

  /** What a token says: its type, its text and where it was found. */
  datatype Lexeme = Lexeme(kind: Kind, text: string, col: nat, line: nat, file: string)

  /** An allocated token; `id` stands for its address. */
  datatype Token = Token(id: nat, lex: Lexeme) {
    predicate Is(k: Kind) {
      lex.kind == k
    }
  }

  /** Comments, attributes and white space never survive stage 1. */
  predicate Blank(k: Kind) {
    k == Comment || k == Attribute || k == Whitespace
  }

  function Lexemes(ts: seq<Token>): (ls: seq<Lexeme>)
    ensures |ls| == |ts|
    ensures forall i :: 0 <= i < |ts| ==> ls[i] == ts[i].lex
  {
    seq(|ts|, i requires 0 <= i < |ts| => ts[i].lex)
  }

  /** The text `ls` with every piece placed where `at` stands. */
  function Relocate(l: Lexeme, at: Lexeme): Lexeme {
    l.(col := at.col, line := at.line, file := at.file)
  }

  /** The lists one after the other. */
  function Flat(tss: seq<seq<Token>>): seq<Token> {
    if tss == [] then [] else Flat(tss[..|tss| - 1]) + tss[|tss| - 1]
  }

  lemma FlatNone()
    ensures Flat([]) == []
  {
  }

  lemma FlatAppend(tss: seq<seq<Token>>, ts: seq<Token>)
    ensures Flat(tss + [ts]) == Flat(tss) + ts
  {
    assert (tss + [ts])[..|tss|] == tss;
  }
}
