/** Tokens in one allocation (token.c): the text, a NUL, the file name, a NUL. */
module TokenBuffers {
  import Lists

  const NUL := '\0'

  predicate IsCString(s: seq<char>) {
    NUL !in s
  }

  /** The buffer of a token. */
  function Layout(text: seq<char>, file: seq<char>): seq<char> {
    text + [NUL] + file + [NUL]
  }

  lemma LayoutFront(front: seq<char>, text: seq<char>, file: seq<char>)
    ensures Layout(front + text, file) == front + Layout(text, file)
    ensures |Layout(text, file)| == |text| + |file| + 2 && Layout(text, file)[|text|] == NUL
  {
  }

  /** memcpy into an allocation. */
  method Put(a: array<char>, at: nat, s: seq<char>)
    requires at + |s| <= a.Length
    modifies a
    ensures forall k :: at <= k < at + |s| ==> a[k] == s[k - at]
    ensures forall k :: 0 <= k < a.Length && !(at <= k < at + |s|) ==> a[k] == old(a[k])
  {
    for i := 0 to |s|
      invariant forall k :: at <= k < at + i ==> a[k] == s[k - at]
      invariant forall k :: 0 <= k < a.Length && !(at <= k < at + i) ==> a[k] == old(a[k])
    {
      a[at + i] := s[i];
    }
  }

  /** strlen of the string at `at`. */
  method StrLen(a: array<char>, at: nat, ghost s: seq<char>) returns (n: nat)
    requires IsCString(s) && at + |s| < a.Length && a[at..at + |s|] == s && a[at + |s|] == NUL
    ensures n == |s|
  {
    n := 0;
    ghost var there := a[at..at + |s|];
    assert forall j :: 0 <= j < |s| ==> there[j] == a[at + j];
    while a[at + n] != NUL
      invariant n <= |s|
      decreases |s| - n
    {
      n := n + 1;
    }
  }

  class TokenBuf {
    var size: nat
    /** Where the file name starts in the buffer; the text starts at 0. */
    var fileAt: nat
    var isName: bool
    var buf: array<char>

    ghost predicate Holds(text: seq<char>, file: seq<char>)
      reads this, buf
    {
      && IsCString(file)
      && size == |text| && fileAt == size + 1
      && buf[..] == Layout(text, file)
    }

    /** psi_token_init. */
    constructor Init(isName: bool, text: seq<char>, file: seq<char>)
      requires IsCString(file)
      ensures Holds(text, file) && this.isName == isName && fresh(buf)
    {
      var b := new char[|text| + |file| + 2](_ => NUL);
      this.isName, size, fileAt, buf := isName, |text|, |text| + 1, b;
      new;
      Put(buf, 0, text);
      Put(buf, |text| + 1, file);
      assert buf[..] == Layout(text, file);
    }

    /** psi_token_copy. */
    constructor Copy(src: TokenBuf, ghost text: seq<char>, ghost file: seq<char>)
      requires src.Holds(text, file)
      ensures Holds(text, file) && isName == src.isName && fresh(buf)
    {
      var b := Lists.Realloc(src.buf, src.buf.Length);
      isName, size, fileAt, buf := src.isName, src.size, src.size + 1, b;
      new;
      assert buf[..] == src.buf[..];
    }

    /** strlen of the file name. */
    method FileLen(ghost text: seq<char>, ghost file: seq<char>) returns (n: nat)
      requires Holds(text, file)
      ensures n == |file|
    {
      ghost var layout := buf[..];
      assert layout[|text| + 1..] == file + [NUL];
      assert buf[fileAt..fileAt + |file|] == layout[|text| + 1..][..|file|] == file;
      assert buf[fileAt + |file|] == layout[|text| + 1..][|file|];
      n := StrLen(buf, fileAt, file);
    }

    /** Grows the buffer for `extra` more characters of text and moves the file name behind them;
        the characters in between are left open. */
    method MakeRoom(extra: nat, ghost text: seq<char>, ghost file: seq<char>) returns (tokenLen: nat)
      requires Holds(text, file)
      modifies this
      ensures fresh(buf) && isName == old(isName)
      ensures tokenLen == |text| && size == |text| + extra && fileAt == size + 1
      ensures buf.Length == size + |file| + 2
      ensures buf[..|text|] == text && buf[size + 1..] == file + [NUL]
    {
      tokenLen := size;
      ghost var layout := buf[..];
      assert layout[..|text|] == text && layout[|text|] == NUL && layout[|text| + 1..] == file + [NUL];
      var fnameLen := FileLen(text, file);
      size := size + extra;
      buf := Lists.Realloc(buf, size + fnameLen + 2);
      fileAt := size + 1;
      Lists.Memmove(buf, size + 1, tokenLen + 1, fnameLen + 1);
      forall k | 0 <= k < |file| + 1 ensures buf[size + 1 + k] == (file + [NUL])[k] {
        assert buf[size + 1 + k] == layout[|text| + 1 + k] == layout[|text| + 1..][k];
      }
      forall k | 0 <= k < |text| ensures buf[k] == text[k] {
        assert buf[k] == layout[k] == layout[..|text|][k];
      }
    }

    /** Adds a separator and a piece behind the text. */
    method AppendOne(sep: seq<char>, piece: seq<char>, ghost text: seq<char>, ghost file: seq<char>)
      requires Holds(text, file)
      modifies this
      ensures Holds(text + sep + piece, file) && fresh(buf) && isName == old(isName)
    {
      var tokenLen := MakeRoom(|piece| + |sep|, text, file);
      ghost var behind := buf[size + 1..];
      Put(buf, tokenLen, sep);
      Put(buf, tokenLen + |sep|, piece + [NUL]);
      forall k | 0 <= k < buf.Length ensures buf[k] == Layout(text + sep + piece, file)[k] {
        if k < |text| {
        } else if k <= size {
        } else {
          assert buf[k] == behind[k - (size + 1)];
        }
      }
      assert buf[..] == Layout(text + sep + piece, file);
    }

    /** Grows the buffer and moves text and file name up by `room`; the front is left open. */
    method Shift(room: nat, ghost text: seq<char>, ghost file: seq<char>)
      requires Holds(text, file)
      modifies this
      ensures fresh(buf) && isName == old(isName)
      ensures size == |text| + room && fileAt == size + 1
      ensures buf.Length == room + |Layout(text, file)| && buf[room..] == Layout(text, file)
    {
      hide Layout;
      LayoutFront([], text, file);
      var tokenLen := size;
      ghost var layout := buf[..];
      var fnameLen := FileLen(text, file);
      size := size + room;
      buf := Lists.Realloc(buf, size + fnameLen + 2);
      fileAt := size + 1;
      Lists.Memmove(buf, room, 0, tokenLen + 1 + fnameLen + 1);
      assert buf[room..] == layout;
    }

    /** Adds a piece and a separator before the text. */
    method PrependOne(sep: seq<char>, piece: seq<char>, ghost text: seq<char>, ghost file: seq<char>)
      requires Holds(text, file)
      modifies this
      ensures Holds(piece + sep + text, file) && fresh(buf) && isName == old(isName)
    {
      hide Layout;
      LayoutFront(piece + sep, text, file);
      var room := |piece| + |sep|;
      Shift(room, text, file);
      ghost var behind := buf[room..];
      Put(buf, 0, piece);
      Put(buf, |piece|, sep);
      assert buf[room..] == behind;
      assert buf[size] == behind[|text|] == NUL;
      buf[size] := NUL;
      assert buf[room..] == behind;
      assert buf[..room] == piece + sep;
      assert buf[..] == buf[..room] + buf[room..];
    }

    /** psi_token_append. */
    method Append(sep: seq<char>, pieces: seq<seq<char>>, ghost text: seq<char>, ghost file: seq<char>)
      requires Holds(text, file)
      modifies this
      ensures Holds(Appended(sep, text, pieces), file) && (pieces != [] ==> fresh(buf)) && isName == old(isName)
    {
      for i := 0 to |pieces|
        invariant Holds(Appended(sep, text, pieces[..i]), file) && isName == old(isName)
        invariant if i == 0 then buf == old(buf) else fresh(buf)
      {
        AppendOne(sep, pieces[i], Appended(sep, text, pieces[..i]), file);
        assert pieces[..i + 1][..i] == pieces[..i];
      }
      assert pieces[..|pieces|] == pieces;
    }

    /** psi_token_prepend. */
    method Prepend(sep: seq<char>, pieces: seq<seq<char>>, ghost text: seq<char>, ghost file: seq<char>)
      requires Holds(text, file)
      modifies this
      ensures Holds(Prepended(sep, text, pieces), file) && (pieces != [] ==> fresh(buf)) && isName == old(isName)
    {
      for i := 0 to |pieces|
        invariant Holds(Prepended(sep, text, pieces[..i]), file) && isName == old(isName)
        invariant if i == 0 then buf == old(buf) else fresh(buf)
      {
        PrependOne(sep, pieces[i], Prepended(sep, text, pieces[..i]), file);
        assert pieces[..i + 1][..i] == pieces[..i];
      }
      assert pieces[..|pieces|] == pieces;
    }
  }

  /** psi_token_cat: null for no arguments, else a NAME with the joined texts and the first file name. */
  method Cat(sep: seq<char>, args: seq<TokenBuf>, ghost texts: seq<seq<char>>, ghost files: seq<seq<char>>)
    returns (t: TokenBuf?)
    requires |texts| == |args| == |files|
    requires forall i :: 0 <= i < |args| ==> args[i].Holds(texts[i], files[i])
    ensures t == null <==> args == []
    ensures t != null ==> fresh(t) && fresh(t.buf) && t.isName && t.Holds(Joined(sep, texts), files[0])
  {
    t := null;
    for i := 0 to |args|
      invariant t == null <==> i == 0
      invariant t != null ==> fresh(t) && fresh(t.buf) && t.isName && t.Holds(Joined(sep, texts[..i]), files[0])
    {
      var arg := args[i];
      assert texts[..i + 1][..i] == texts[..i];
      if t != null {
        assert arg.buf[..][..arg.size] == texts[i];
        t.AppendOne(sep, arg.buf[..arg.size], Joined(sep, texts[..i]), files[0]);
      } else {
        t := new TokenBuf.Copy(arg, texts[i], files[i]);
        t.isName := true;
        assert texts[..1] == [texts[0]];
      }
    }
    assert texts[..|texts|] == texts;
  }

  // ----- the texts -----

  function Appended(sep: seq<char>, text: seq<char>, pieces: seq<seq<char>>): seq<char> {
    if pieces == [] then text else Appended(sep, text, pieces[..|pieces| - 1]) + sep + pieces[|pieces| - 1]
  }

  function Prepended(sep: seq<char>, text: seq<char>, pieces: seq<seq<char>>): seq<char> {
    if pieces == [] then text else pieces[|pieces| - 1] + sep + Prepended(sep, text, pieces[..|pieces| - 1])
  }

  /** The pieces with the separator between each two of them. */
  function Joined(sep: seq<char>, texts: seq<seq<char>>): seq<char> {
    if texts == [] then []
    else if |texts| == 1 then texts[0]
    else Joined(sep, texts[..|texts| - 1]) + sep + texts[|texts| - 1]
  }

  function Reversed(texts: seq<seq<char>>): (r: seq<seq<char>>)
    ensures |r| == |texts|
  {
    if texts == [] then [] else [texts[|texts| - 1]] + Reversed(texts[..|texts| - 1])
  }

  lemma {:induction false} AppendedIsJoined(sep: seq<char>, text: seq<char>, pieces: seq<seq<char>>)
    ensures Appended(sep, text, pieces) == Joined(sep, [text] + pieces)
  {
    if pieces != [] {
      var n := |pieces| - 1;
      AppendedIsJoined(sep, text, pieces[..n]);
      assert ([text] + pieces)[..n + 1] == [text] + pieces[..n];
    }
  }

  lemma {:induction false} JoinedFront(sep: seq<char>, first: seq<char>, texts: seq<seq<char>>)
    requires texts != []
    ensures Joined(sep, [first] + texts) == first + sep + Joined(sep, texts)
  {
    var n := |texts| - 1;
    if n > 0 {
      JoinedFront(sep, first, texts[..n]);
      assert ([first] + texts)[..n + 1] == [first] + texts[..n];
      assert first + sep + Joined(sep, texts[..n]) + sep + texts[n] ==
             first + sep + (Joined(sep, texts[..n]) + sep + texts[n]);
    } else {
      assert ([first] + texts)[..1] == [first];
    }
  }

  /** Prepending joins the pieces in reverse order before the text. */
  lemma {:induction false} PrependedIsJoined(sep: seq<char>, text: seq<char>, pieces: seq<seq<char>>)
    ensures Prepended(sep, text, pieces) == Joined(sep, Reversed(pieces) + [text])
  {
    if pieces == [] {
      assert Reversed(pieces) + [text] == [text];
    } else {
      var n := |pieces| - 1;
      var rest := Reversed(pieces[..n]) + [text];
      PrependedIsJoined(sep, text, pieces[..n]);
      JoinedFront(sep, pieces[n], rest);
      assert Reversed(pieces) + [text] == [pieces[n]] + rest;
    }
  }
}
