/** Splitting strings into tokens (`src/stdlib/tokenize.rs`). */
module Tokens {
  import opened Bytes

  const QUOTE: byte := 34
  const APOSTROPHE: byte := 39
  const BACKSLASH: byte := 92
  const SLASH: byte := 47
  const STAR: byte := 42
  const SPACE: byte := 32
  const NEWLINE: byte := 10
  const RETURN: byte := 13
  const TAB: byte := 9

  /** Longest tokens: a longer word continues as the next token. */
  const TOKEN_MAX: nat := 65535
  const CSTRING_MAX: nat := 65534

  predicate At(s: seq<byte>, p: nat, c: byte) { p < |s| && s[p] == c }

  /** Tokens by themselves in QuakeC mode. */
  predicate IsSingle(c: byte) {
    || c == NEWLINE || c == 123 || c == 125 || c == 40 || c == 41 || c == 91 || c == 93
    || c == APOSTROPHE || c == 58 || c == 44 || c == 59
  }

  function HexDigit(s: seq<byte>, p: nat): (r: Option<nat>)
    ensures r.Some? ==> p < |s| && r.value < 16
  {
    if p >= |s| then None
    else if 48 <= s[p] <= 57 then Some(s[p] as nat - 48)
    else if 65 <= s[p] <= 70 then Some(s[p] as nat - 55)
    else if 97 <= s[p] <= 102 then Some(s[p] as nat - 87)
    else None
  }

  // ---- C-escaped strings -----------------------------------------------------------------------

  /** What follows in a C string: nothing more, a character, or a continuation. */
  datatype Item = Stop(end: nat) | Byte(c: byte, end: nat) | Skip(end: nat)

  function Closes(c: byte): bool { c == QUOTE || c == 0 }

  /** The item at `p` of a C string. */
  function ItemAt(s: seq<byte>, p: nat): (r: Item)
    requires p <= |s|
    ensures p <= r.end <= |s| && (r.Stop? || r.end > p)
  {
    if p == |s| then Stop(|s|)
    else if s[p] != BACKSLASH then if Closes(s[p]) then Stop(p + 1) else Byte(s[p], p + 1)
    else if p + 1 == |s| then Stop(|s|)
    else
      var (e, q) := (s[p + 1], p + 2);
      if e == NEWLINE then Skip(q)
      else if e == RETURN then Skip(if At(s, q, NEWLINE) then q + 1 else q)
      else if e == 110 then Byte(NEWLINE, q)
      else if e == 116 then Byte(TAB, q)
      else if e == 114 then Byte(RETURN, q)
      else if e == 120 then
        match HexDigit(s, q)
        case None => Stop(q)
        case Some(d) =>
          (match HexDigit(s, q + 1)
           case None => if Closes(d) then Stop(q + 1) else Byte(d, q + 1)
           case Some(f) => if Closes(16 * d + f) then Stop(q + 2) else Byte(16 * d + f, q + 2))
      else if e == 36 || e == BACKSLASH || e == APOSTROPHE || e == QUOTE then Byte(e, q)
      else Byte(63, q)
  }

  /** The text of the C string from `p` on, after `out`, and where it ends. */
  function CString(s: seq<byte>, p: nat, out: seq<byte>): (r: (seq<byte>, nat))
    requires p <= |s|
    ensures p <= r.1 <= |s|
    decreases |s| - p
  {
    if |out| >= CSTRING_MAX then (out, p)
    else match ItemAt(s, p)
      case Stop(end) => (out, end)
      case Byte(c, end) => CString(s, end, out + [c])
      case Skip(end) => CString(s, end, out)
  }

  /** The source's loop. */
  method ParseCString(s: seq<byte>, at: nat) returns (out: seq<byte>, p: nat)
    requires at < |s|
    ensures (out, p) == CString(s, at + 1, [])
  {
    out, p := [], at + 1;
    while true
      invariant p <= |s| && CString(s, at + 1, []) == CString(s, p, out)
      decreases |s| - p
    {
      if |out| >= CSTRING_MAX { return; }
      if p == |s| { return out, |s|; }
      var c := s[p];
      ghost var from := p;
      p := p + 1;
      if c == BACKSLASH {
        if p == |s| { return out, |s|; }
        var e := s[p];
        p := p + 1;
        if e == RETURN || e == NEWLINE {
          if e == RETURN && At(s, p, NEWLINE) { p := p + 1; }
          continue;
        }
        if e == 110 {
          c := NEWLINE;
        } else if e == 116 {
          c := TAB;
        } else if e == 114 {
          c := RETURN;
        } else if e == 120 {
          var v: nat := 0;
          var d := HexDigit(s, p);
          if d.Some? {
            v, p := d.value, p + 1;
            d := HexDigit(s, p);
            if d.Some? { v, p := 16 * v + d.value, p + 1; }
          }
          c := v;
        } else if e == 36 || e == BACKSLASH || e == APOSTROPHE {
          c := e;
        } else if e == QUOTE {
          out := out + [QUOTE];
          continue;
        } else {
          c := 63;
        }
      }
      if c == QUOTE || c == 0 {
        assert ItemAt(s, from) == Stop(p);
        return;
      }
      assert ItemAt(s, from) == Byte(c, p);
      out := out + [c];
    }
  }

  // ---- quoted strings and words ----------------------------------------------------------------

  /** The text of a string quoted with `c`, from `p` on: a doubled quote is a literal one. */
  function Quoted(s: seq<byte>, p: nat, out: seq<byte>, c: byte): (r: (seq<byte>, nat))
    requires p <= |s|
    ensures p <= r.1 <= |s|
    decreases |s| - p
  {
    if |out| >= TOKEN_MAX then (out, p)
    else if p == |s| then (out, |s|)
    else if s[p] != c then Quoted(s, p + 1, out + [s[p]], c)
    else if At(s, p + 1, c) then Quoted(s, p + 2, out + [c], c)
    else (out, p + 1)
  }

  method ParseQuoted(s: seq<byte>, from: nat, c: byte) returns (out: seq<byte>, p: nat)
    requires from <= |s|
    ensures (out, p) == Quoted(s, from, [], c)
  {
    out, p := [], from;
    while true
      invariant p <= |s| && Quoted(s, from, [], c) == Quoted(s, p, out, c)
      decreases |s| - p
    {
      if |out| >= TOKEN_MAX { return; }
      if p == |s| { return out, |s|; }
      var d := s[p];
      p := p + 1;
      if d == c {
        if !At(s, p, c) { return; }
        p := p + 1;
      }
      out := out + [d];
    }
  }

  /** The word from `p` on. */
  function Word(s: seq<byte>, p: nat, out: seq<byte>, qc: bool): (r: (seq<byte>, nat))
    requires p < |s|
    ensures p <= r.1 <= |s| && (|out| < TOKEN_MAX ==> p < r.1)
    decreases |s| - p
  {
    if |out| >= TOKEN_MAX then (out, p)
    else if p + 1 < |s| && s[p + 1] > SPACE && !(qc && IsSingle(s[p + 1])) then Word(s, p + 1, out + [s[p]], qc)
    else (out + [s[p]], p + 1)
  }

  method ParseWord(s: seq<byte>, from: nat, qc: bool) returns (out: seq<byte>, p: nat)
    requires from < |s|
    ensures (out, p) == Word(s, from, [], qc)
  {
    out, p := [], from;
    while true
      invariant p < |s| && Word(s, from, [], qc) == Word(s, p, out, qc)
      decreases |s| - p
    {
      if |out| >= TOKEN_MAX { return; }
      out := out + [s[p]];
      p := p + 1;
      if !(p < |s| && s[p] > SPACE && !(qc && IsSingle(s[p]))) { return; }
    }
  }

  // ---- tokens ----------------------------------------------------------------------------------

  /** Where the line that `p` is on ends. */
  function LineEnd(s: seq<byte>, p: nat): (r: nat)
    requires p <= |s|
    ensures p <= r <= |s|
    decreases |s| - p
  {
    if p < |s| && s[p] != NEWLINE then LineEnd(s, p + 1) else p
  }

  /** After the next comment end from `p` on, or the end of the string. */
  function CommentEnd(s: seq<byte>, p: nat): (r: nat)
    ensures p <= |s| ==> p <= r <= |s|
    ensures r <= |s|
    decreases |s| - p
  {
    if p + 1 >= |s| then |s|
    else if s[p] == STAR && s[p + 1] == SLASH then p + 2
    else CommentEnd(s, p + 1)
  }

  /** The first byte from `p` on that is no white space (newlines are kept) and no comment. */
  function Start(s: seq<byte>, p: nat, qc: bool): (r: Option<nat>)
    requires p <= |s|
    ensures r.Some? ==> p <= r.value < |s| && (s[r.value] > SPACE || s[r.value] == NEWLINE)
    decreases |s| - p
  {
    if p == |s| then None
    else if s[p] <= SPACE && s[p] != NEWLINE then Start(s, p + 1, qc)
    else if s[p] == SLASH && At(s, p + 1, SLASH) then Start(s, LineEnd(s, p + 2), qc)
    else if !qc && s[p] == SLASH && At(s, p + 1, STAR) then Start(s, CommentEnd(s, p + 2), qc)
    else Some(p)
  }

  /** The token at `p`, and where it ends. */
  function TokenAt(s: seq<byte>, p: nat, qc: bool): (r: (seq<byte>, nat))
    requires p < |s|
    ensures p < r.1 <= |s|
  {
    var c := s[p];
    if c == NEWLINE then ([NEWLINE], p + 1)
    else if c == BACKSLASH && At(s, p + 1, QUOTE) then CString(s, p + 2, [])
    else if c == QUOTE || (qc && c == APOSTROPHE) then Quoted(s, p + 1, [], c)
    else if qc && IsSingle(c) then ([c], p + 1)
    else Word(s, p, [], qc)
  }

  datatype Token = Token(text: seq<byte>, start: nat, end: nat)

  const TOKEN_BYTES: nat := 40

  /** What a token costs, counting the list's growth slack. */
  function Cost(text: seq<byte>): nat { 2 * TOKEN_BYTES + |text| }

  function SkipSpace(s: seq<byte>, p: nat): (r: nat)
    requires p <= |s|
    ensures p <= r <= |s|
    decreases |s| - p
  {
    if p < |s| && s[p] <= SPACE then SkipSpace(s, p + 1) else p
  }

  /** The tokens from `p` on, as far as the budget goes. */
  function SplitFrom(s: seq<byte>, p: nat, qc: bool, left: nat): seq<Token>
    requires p <= |s|
    decreases |s| - p
  {
    var q := SkipSpace(s, p);
    if q == |s| then []
    else match Start(s, q, qc)
      case None => []
      case Some(at) =>
        var (text, end) := TokenAt(s, at, qc);
        if left < Cost(text) then [] else [Token(text, q, end)] + SplitFrom(s, end, qc, left - Cost(text))
  }

  method SkipBlanks(s: seq<byte>, p: nat) returns (q: nat)
    requires p <= |s|
    ensures q == SkipSpace(s, p)
  {
    q := p;
    while q < |s| && s[q] <= SPACE
      invariant p <= q <= |s| && SkipSpace(s, q) == SkipSpace(s, p)
    {
      q := q + 1;
    }
  }

  /** The end of the line `from` is on, byte by byte. */
  method SkipLine(s: seq<byte>, from: nat) returns (p: nat)
    requires from <= |s|
    ensures p == LineEnd(s, from)
  {
    p := from;
    while p < |s| && s[p] != NEWLINE
      invariant from <= p <= |s| && LineEnd(s, from) == LineEnd(s, p)
    {
      p := p + 1;
    }
  }

  /** After the comment `from` is in. */
  method SkipComment(s: seq<byte>, from: nat) returns (p: nat)
    requires from <= |s|
    ensures p == CommentEnd(s, from)
  {
    p := from;
    while p + 1 < |s|
      invariant from <= p <= |s| && CommentEnd(s, from) == CommentEnd(s, p)
    {
      if s[p] == STAR && s[p + 1] == SLASH { return p + 2; }
      p := p + 1;
    }
    return |s|;
  }

  /** The source's loop over white space and comments. */
  method FindStart(s: seq<byte>, from: nat, qc: bool) returns (at: Option<nat>)
    requires from <= |s|
    ensures at == Start(s, from, qc)
  {
    var p := from;
    while true
      invariant p <= |s| && Start(s, from, qc) == Start(s, p, qc)
      decreases |s| - p
    {
      while p < |s| && s[p] <= SPACE && s[p] != NEWLINE
        invariant p <= |s| && Start(s, from, qc) == Start(s, p, qc)
      {
        p := p + 1;
      }
      if p == |s| { return None; }
      if s[p] == SLASH && At(s, p + 1, SLASH) {
        p := SkipLine(s, p + 2);
      } else if !qc && s[p] == SLASH && At(s, p + 1, STAR) {
        p := SkipComment(s, p + 2);
      } else {
        return Some(p);
      }
    }
  }

  /** The text of the token that starts at `p`, and where it ends. */
  method ReadToken(s: seq<byte>, p: nat, qc: bool) returns (text: seq<byte>, end: nat)
    requires p < |s|
    ensures (text, end) == TokenAt(s, p, qc)
  {
    var c := s[p];
    if c == NEWLINE {
      return [NEWLINE], p + 1;
    } else if c == BACKSLASH && At(s, p + 1, QUOTE) {
      text, end := ParseCString(s, p + 1);
    } else if c == QUOTE || (qc && c == APOSTROPHE) {
      text, end := ParseQuoted(s, p + 1, c);
    } else if qc && IsSingle(c) {
      return [c], p + 1;
    } else {
      text, end := ParseWord(s, p, qc);
    }
  }

  /** The next token from `p` on: `None` when only white space and comments remain. */
  method ParseToken(s: seq<byte>, p: nat, qc: bool) returns (r: Option<(seq<byte>, nat)>)
    requires p <= |s|
    ensures match Start(s, p, qc)
            case None => r == None
            case Some(at) => r == Some(TokenAt(s, at, qc))
  {
    var at := FindStart(s, p, qc);
    if at.None? { return None; }
    var text, end := ReadToken(s, at.value, qc);
    return Some((text, end));
  }

  // ---- the budget ------------------------------------------------------------------------------

  /** All tokens from `p` on. */
  function AllFrom(s: seq<byte>, p: nat, qc: bool): seq<Token>
    requires p <= |s|
    decreases |s| - p
  {
    var q := SkipSpace(s, p);
    if q == |s| then []
    else match Start(s, q, qc)
      case None => []
      case Some(at) =>
        var (text, end) := TokenAt(s, at, qc);
        [Token(text, q, end)] + AllFrom(s, end, qc)
  }

  /** What the first tokens cost. */
  function Spent(list: seq<Token>): nat {
    if list == [] then 0 else Spent(list[..|list| - 1]) + Cost(list[|list| - 1].text)
  }

  /** The next token, unless only white space and comments remain or the budget does not cover it. */
  method NextToken(s: seq<byte>, p: nat, qc: bool, left: nat) returns (r: Option<Token>, exceeded: bool)
    requires p <= |s|
    ensures r.None? ==> SplitFrom(s, p, qc, left) == []
    ensures r.None? && !exceeded ==> AllFrom(s, p, qc) == []
    ensures exceeded ==> AllFrom(s, p, qc) != [] && Cost(AllFrom(s, p, qc)[0].text) > left
    ensures r.Some? ==> p < r.value.end <= |s| && Cost(r.value.text) <= left && !exceeded
    ensures r.Some? ==> SplitFrom(s, p, qc, left) == [r.value] + SplitFrom(s, r.value.end, qc, left - Cost(r.value.text))
    ensures r.Some? ==> AllFrom(s, p, qc) == [r.value] + AllFrom(s, r.value.end, qc)
  {
    var q := SkipBlanks(s, p);
    if q == |s| { return None, false; }
    var token := ParseToken(s, q, qc);
    if token.None? { return None, false; }
    var (text, end) := token.value;
    if left < Cost(text) { return None, true; }
    return Some(Token(text, q, end)), false;
  }

  lemma TakeFirst<T>(list: seq<T>, x: T, rest: seq<T>)
    ensures list + ([x] + rest) == list + [x] + rest
  {
  }

  lemma SpentNext(list: seq<Token>, x: Token)
    ensures Spent(list + [x]) == Spent(list) + Cost(x.text)
  {
    assert (list + [x])[..|list|] == list;
  }

  /** `list` is as many of the tokens `all` as the budget covers; it is exceeded when there are more. */
  predicate Covers(list: seq<Token>, all: seq<Token>, budget: nat, exceeded: bool) {
    && list <= all && Spent(list) <= budget && (exceeded <==> |list| < |all|)
    && (exceeded ==> Spent(list) + Cost(all[|list|].text) > budget)
  }

  /** The source's loop over the string. */
  method Split(s: seq<byte>, qc: bool, budget: nat) returns (list: seq<Token>, exceeded: bool)
    ensures list == SplitFrom(s, 0, qc, budget)
    ensures Covers(list, AllFrom(s, 0, qc), budget, exceeded)
  {
    var p, left: nat := 0, budget;
    list := [];
    while true
      invariant p <= |s| && list + SplitFrom(s, p, qc, left) == SplitFrom(s, 0, qc, budget)
      invariant list + AllFrom(s, p, qc) == AllFrom(s, 0, qc) && Spent(list) + left == budget
      decreases |s| - p
    {
      var r;
      r, exceeded := NextToken(s, p, qc, left);
      if r.None? { return; }
      p, left := r.value.end, left - Cost(r.value.text);
      TakeFirst(list, r.value, SplitFrom(s, p, qc, left));
      TakeFirst(list, r.value, AllFrom(s, p, qc));
      SpentNext(list, r.value);
      list := list + [r.value];
    }
  }
}
