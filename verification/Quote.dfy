/** Quoting strings for the tokenizer, and reading them back (`src/stdlib/format.rs`,
    `src/stdlib/tokenize.rs`). */
module Quote {
  import opened Bytes
  import opened Tokens

  function SatSub(a: nat, b: nat): nat { if a >= b then a - b else 0 }

  /** Strings that need the C-escaped form. */
  predicate NeedsEscapes(s: seq<byte>) { NEWLINE in s || RETURN in s || QUOTE in s }

  /** How a byte is written in the C-escaped form. */
  function Escaped(c: byte): (r: seq<byte>)
    ensures 1 <= |r| <= 2
  {
    if c == NEWLINE then [BACKSLASH, 110]
    else if c == RETURN then [BACKSLASH, 114]
    else if c == TAB then [BACKSLASH, 116]
    else if c == APOSTROPHE || c == QUOTE || c == BACKSLASH || c == 36 then [BACKSLASH, c]
    else [c]
  }

  /** As much of `s` as fits, escaped. A byte is written only while two still fit. */
  function EscapedUpTo(s: seq<byte>, budget: nat): seq<byte> {
    if s == [] || budget < 2 then [] else Escaped(s[0]) + EscapedUpTo(s[1..], budget - |Escaped(s[0])|)
  }

  /** How many bytes of `s` are written. */
  function TakenUpTo(s: seq<byte>, budget: nat): (n: nat)
    ensures n <= |s|
  {
    if s == [] || budget < 2 then 0 else 1 + TakenUpTo(s[1..], budget - |Escaped(s[0])|)
  }

  function EscapeAll(s: seq<byte>): (r: seq<byte>)
    ensures |s| <= |r|
  {
    if s == [] then [] else Escaped(s[0]) + EscapeAll(s[1..])
  }

  /** `s` quoted, as far as a buffer of `bufsize` bytes holds it. */
  function QuoteString(s: seq<byte>, bufsize: nat): seq<byte> {
    if NeedsEscapes(s) then [BACKSLASH, QUOTE] + EscapedUpTo(s, SatSub(bufsize, 4)) + [QUOTE]
    else
      var n := SatSub(bufsize, 3);
      [QUOTE] + (if n <= |s| then s[..n] else s) + [QUOTE]
  }

  lemma EscapeNext(out: seq<byte>, s: seq<byte>, i: nat, budget: nat)
    requires i < |s| && budget >= 2
    ensures out + EscapedUpTo(s[i..], budget) == out + Escaped(s[i]) + EscapedUpTo(s[i + 1..], budget - |Escaped(s[i])|)
  {
    assert s[i..][1..] == s[i + 1..];
  }

  /** The source's loop. */
  method Quoting(s: seq<byte>, bufsize: nat) returns (out: seq<byte>)
    ensures out == QuoteString(s, bufsize)
  {
    if NEWLINE in s || RETURN in s || QUOTE in s {
      out := [BACKSLASH, QUOTE];
      var budget: nat := if bufsize >= 4 then bufsize - 4 else 0;
      var i := 0;
      ghost var goal := out + EscapedUpTo(s, budget);
      assert s[0..] == s;
      while i < |s| && budget >= 2
        invariant i <= |s| && out + EscapedUpTo(s[i..], budget) == goal
      {
        var e := Escaped(s[i]);
        EscapeNext(out, s, i, budget);
        out := out + e;
        budget := budget - |e|;
        i := i + 1;
      }
      assert out + [] == out;
    } else {
      out := [QUOTE];
      var budget := SatSub(bufsize, 3);
      out := out + s[..if budget <= |s| then budget else |s|];
      assert s[..|s|] == s;
    }
    out := out + [QUOTE];
  }

  // ---- what fits -------------------------------------------------------------------------------

  /** How much of `s` the quoted string holds. */
  function Held(s: seq<byte>, bufsize: nat): (n: nat)
    ensures n <= |s|
  {
    if NeedsEscapes(s) then TakenUpTo(s, SatSub(bufsize, 4))
    else if SatSub(bufsize, 3) <= |s| then SatSub(bufsize, 3)
    else |s|
  }

  /** All of `s` fits the buffer. */
  predicate Fits(s: seq<byte>, bufsize: nat) { Held(s, bufsize) == |s| }

  lemma {:induction false} EscapedIsPrefix(s: seq<byte>, budget: nat)
    ensures EscapedUpTo(s, budget) == EscapeAll(s[..TakenUpTo(s, budget)])
    ensures |EscapedUpTo(s, budget)| <= budget
  {
    if s != [] && budget >= 2 {
      var n := TakenUpTo(s, budget);
      EscapedIsPrefix(s[1..], budget - |Escaped(s[0])|);
      assert s[..n][0] == s[0] && s[..n][1..] == s[1..][..n - 1];
    } else {
      assert s[..0] == [];
    }
  }

  // ---- reading back ----------------------------------------------------------------------------

  /** What is left to read after a closing quote. */
  predicate Ends(s: seq<byte>, p: nat) { p == |s| || (p < |s| && s[p] == SPACE) }

  /** Reading a plain quoted string. */
  lemma {:induction false} PlainReads(s: seq<byte>, p: nat, out: seq<byte>, t: seq<byte>)
    requires p + |t| < |s| && s[p..p + |t|] == t && s[p + |t|] == QUOTE && QUOTE !in t
    requires Ends(s, p + |t| + 1) && |out| + |t| < TOKEN_MAX
    ensures Quoted(s, p, out, QUOTE) == (out + t, p + |t| + 1)
    decreases |t|
  {
    if t == [] {
      assert out + t == out;
    } else {
      assert s[p] == t[0] && s[p + 1..p + |t|] == t[1..];
      PlainReads(s, p + 1, out + [t[0]], t[1..]);
      assert out + [t[0]] + t[1..] == out + t;
    }
  }

  /** An escaped byte is read as that byte. */
  lemma EscapeReads(s: seq<byte>, p: nat, c: byte)
    requires c != 0 && p + |Escaped(c)| <= |s| && s[p..p + |Escaped(c)|] == Escaped(c)
    ensures ItemAt(s, p) == Byte(c, p + |Escaped(c)|)
  {
    assert s[p] == s[p..p + |Escaped(c)|][0];
    if |Escaped(c)| == 2 { assert s[p + 1] == s[p..p + 2][1]; }
  }

  lemma SliceParts(s: seq<byte>, p: nat, a: seq<byte>, b: seq<byte>)
    requires p + |a + b| <= |s| && s[p..p + |a + b|] == a + b
    ensures s[p..p + |a|] == a && s[p + |a|..p + |a| + |b|] == b
  {
    assert s[p..p + |a|] == s[p..p + |a + b|][..|a|];
    assert s[p + |a|..p + |a| + |b|] == s[p..p + |a + b|][|a|..];
  }

  lemma AppendOne(out: seq<byte>, t: seq<byte>)
    requires t != []
    ensures out + [t[0]] + t[1..] == out + t
  {
  }

  lemma OneEscape(s: seq<byte>, p: nat, out: seq<byte>, c: byte)
    requires c != 0 && p + |Escaped(c)| <= |s| && s[p..p + |Escaped(c)|] == Escaped(c) && |out| < CSTRING_MAX
    ensures CString(s, p, out) == CString(s, p + |Escaped(c)|, out + [c])
  {
    EscapeReads(s, p, c);
  }

  /** `all` stands at `p`, closed by a quote. */
  predicate ClosedAt(s: seq<byte>, p: nat, all: seq<byte>) {
    p + |all| < |s| && s[p..p + |all|] == all && s[p + |all|] == QUOTE
  }

  lemma FirstEscape(s: seq<byte>, p: nat, out: seq<byte>, c: byte, e: seq<byte>, rest: seq<byte>, next: nat)
    requires c != 0 && e == Escaped(c) && ClosedAt(s, p, e + rest) && |out| < CSTRING_MAX && next == p + |e|
    ensures ClosedAt(s, next, rest) && next + |rest| == p + |e + rest|
    ensures CString(s, p, out) == CString(s, next, out + [c])
  {
    SliceParts(s, p, e, rest);
    OneEscape(s, p, out, c);
  }

  /** Reading a C-escaped string. */
  lemma {:induction false} EscapesRead(s: seq<byte>, p: nat, out: seq<byte>, t: seq<byte>, all: seq<byte>)
    requires all == EscapeAll(t) && ClosedAt(s, p, all) && 0 !in t && |out| + |t| < CSTRING_MAX
    ensures CString(s, p, out) == (out + t, p + |all| + 1)
    decreases |t|
  {
    if t == [] {
      assert out + t == out;
    } else {
      var e, rest := Escaped(t[0]), EscapeAll(t[1..]);
      var next := p + |e|;
      FirstEscape(s, p, out, t[0], e, rest, next);
      EscapesRead(s, next, out + [t[0]], t[1..], rest);
      AppendOne(out, t);
    }
  }

  /** A C string stops at a NUL. */
  lemma {:induction false} NulStops(s: seq<byte>, p: nat, out: seq<byte>, t: seq<byte>)
    requires p + |EscapeAll(t)| < |s| && s[p..p + |EscapeAll(t)|] == EscapeAll(t) && 0 in t
    ensures |CString(s, p, out).0| < |out| + |t|
    decreases |t|
  {
    SliceParts(s, p, Escaped(t[0]), EscapeAll(t[1..]));
    if t[0] == 0 {
      assert s[p] == s[p..p + 1][0];
    } else if |out| < CSTRING_MAX {
      assert t == [t[0]] + t[1..];
      EscapeReads(s, p, t[0]);
      NulStops(s, p + |Escaped(t[0])|, out + [t[0]], t[1..]);
    }
  }

  /** The bytes of a quoted string stand at `p`, and a space or the end follows. */
  predicate QuotedAt(s: seq<byte>, p: nat, t: seq<byte>, bufsize: nat) {
    var q := QuoteString(t, bufsize);
    p + |q| <= |s| && s[p..p + |q|] == q && Ends(s, p + |q|)
  }

  /** `sprintf`'s buffer, the largest one strings are quoted into. */
  const BUFFER_MAX: nat := 65536

  /** A quoted body between the opening and the closing quote. */
  predicate BodyAt(s: seq<byte>, p: nat, open: seq<byte>, body: seq<byte>) {
    && p + |open| + |body| < |s| && s[p..p + |open|] == open
    && s[p + |open|..p + |open| + |body|] == body && s[p + |open| + |body|] == QUOTE
  }

  lemma QuotedParts(s: seq<byte>, p: nat, open: seq<byte>, body: seq<byte>, q: seq<byte>)
    requires q == open + body + [QUOTE] && p + |q| <= |s| && s[p..p + |q|] == q
    ensures BodyAt(s, p, open, body)
  {
    assert q == open + (body + [QUOTE]);
    SliceParts(s, p, open, body + [QUOTE]);
    SliceParts(s, p + |open|, body, [QUOTE]);
    assert s[p + |open| + |body|] == s[p + |open| + |body|..p + |open| + |body| + 1][0];
  }

  lemma PlainToken(s: seq<byte>, p: nat, qc: bool, t: seq<byte>)
    requires BodyAt(s, p, [QUOTE], t) && QUOTE !in t && |t| < TOKEN_MAX && Ends(s, p + 1 + |t| + 1)
    ensures s[p] == QUOTE && TokenAt(s, p, qc) == (t, p + 1 + |t| + 1) && Start(s, p, qc) == Some(p)
  {
    assert s[p] == s[p..p + 1][0];
    PlainReads(s, p + 1, [], t);
    assert [] + t == t;
  }

  lemma EscapedToken(s: seq<byte>, p: nat, qc: bool, t: seq<byte>)
    requires BodyAt(s, p, [BACKSLASH, QUOTE], EscapeAll(t)) && 0 !in t && |t| < CSTRING_MAX
    ensures s[p] == BACKSLASH && TokenAt(s, p, qc) == (t, p + 2 + |EscapeAll(t)| + 1) && Start(s, p, qc) == Some(p)
  {
    assert s[p] == s[p..p + 2][0] && s[p + 1] == s[p..p + 2][1];
    EscapesRead(s, p + 2, [], t, EscapeAll(t));
    assert [] + t == t;
  }

  /** A quoted string is read back as far as the buffer held it, unless a NUL is escaped. */
  lemma ReadsHeld(s: seq<byte>, p: nat, qc: bool, t: seq<byte>, bufsize: nat)
    requires QuotedAt(s, p, t, bufsize) && bufsize <= BUFFER_MAX
    requires NeedsEscapes(t) ==> 0 !in t[..Held(t, bufsize)]
    ensures p < |s| && s[p] > SPACE
    ensures TokenAt(s, p, qc) == (t[..Held(t, bufsize)], p + |QuoteString(t, bufsize)|)
    ensures Start(s, p, qc) == Some(p)
  {
    var q, held := QuoteString(t, bufsize), t[..Held(t, bufsize)];
    if NeedsEscapes(t) {
      EscapedIsPrefix(t, SatSub(bufsize, 4));
      QuotedParts(s, p, [BACKSLASH, QUOTE], EscapeAll(held), q);
      EscapedToken(s, p, qc, held);
    } else {
      QuotedParts(s, p, [QUOTE], held, q);
      PlainToken(s, p, qc, held);
    }
  }

  /** With an escaped NUL the token is cut short. */
  lemma ReadsLess(s: seq<byte>, p: nat, qc: bool, t: seq<byte>, bufsize: nat)
    requires QuotedAt(s, p, t, bufsize) && NeedsEscapes(t) && 0 in t[..Held(t, bufsize)]
    ensures p < |s| && s[p] > SPACE && Start(s, p, qc) == Some(p)
    ensures |TokenAt(s, p, qc).0| < |t|
  {
    var held := t[..Held(t, bufsize)];
    EscapedIsPrefix(t, SatSub(bufsize, 4));
    QuotedParts(s, p, [BACKSLASH, QUOTE], EscapeAll(held), QuoteString(t, bufsize));
    assert s[p] == s[p..p + 2][0] && s[p + 1] == s[p..p + 2][1];
    NulStops(s, p + 2, [], held);
  }

  // ---- lists -----------------------------------------------------------------------------------

  /** Quoted strings joined with spaces. */
  function Joined(ts: seq<seq<byte>>, bufsize: nat): seq<byte> {
    if ts == [] then []
    else if |ts| == 1 then QuoteString(ts[0], bufsize)
    else QuoteString(ts[0], bufsize) + [SPACE] + Joined(ts[1..], bufsize)
  }

  function Texts(tokens: seq<Token>): (r: seq<seq<byte>>)
    ensures |r| == |tokens|
  {
    seq(|tokens|, i requires 0 <= i < |tokens| => tokens[i].text)
  }

  /** What splitting a list of strings costs. */
  function CostAll(ts: seq<seq<byte>>): nat { if ts == [] then 0 else Cost(ts[0]) + CostAll(ts[1..]) }

  /** A string survives quoting: it fits, and has no NUL that would have to be escaped. */
  predicate Survives(t: seq<byte>, bufsize: nat) { Fits(t, bufsize) && !(NeedsEscapes(t) && 0 in t) }

  lemma DropFront(s: seq<byte>, p: nat, a: seq<byte>, b: seq<byte>)
    requires p <= |s| && s[p..] == a + b
    ensures p + |a| + |b| == |s| && s[p..p + |a|] == a && s[p + |a|..] == b
  {
    assert s[p..p + |a|] == s[p..][..|a|];
    assert s[p + |a|..] == s[p..][|a|..];
  }

  lemma FirstQuoted(s: seq<byte>, p: nat, ts: seq<seq<byte>>, bufsize: nat)
    requires p <= |s| && s[p..] == Joined(ts, bufsize) && ts != []
    ensures QuotedAt(s, p, ts[0], bufsize)
    ensures var end := p + |QuoteString(ts[0], bufsize)|;
      if |ts| == 1 then end == |s| else At(s, end, SPACE) && s[end + 1..] == Joined(ts[1..], bufsize)
  {
    var q := QuoteString(ts[0], bufsize);
    if |ts| == 1 {
      assert q + [] == q;
      DropFront(s, p, q, []);
    } else {
      FirstOfMore(s, p, q, Joined(ts[1..], bufsize));
    }
  }

  lemma FirstOfMore(s: seq<byte>, p: nat, q: seq<byte>, rest: seq<byte>)
    requires p <= |s| && s[p..] == q + [SPACE] + rest
    ensures p + |q| < |s| && s[p..p + |q|] == q && s[p + |q|] == SPACE && s[p + |q| + 1..] == rest
  {
    assert q + [SPACE] + rest == q + ([SPACE] + rest);
    DropFront(s, p, q, [SPACE] + rest);
    DropFront(s, p + |q|, [SPACE], rest);
    assert s[p + |q|] == s[p + |q|..p + |q| + 1][0];
  }

  /** A space before the next token is skipped. */
  lemma SplitSkips(s: seq<byte>, p: nat, qc: bool, left: nat)
    requires At(s, p, SPACE)
    ensures Texts(SplitFrom(s, p, qc, left)) == Texts(SplitFrom(s, p + 1, qc, left))
  {
    assert SkipSpace(s, p) == SkipSpace(s, p + 1);
  }

  /** A quoted string that survives is the next token. */
  lemma SplitsOne(s: seq<byte>, p: nat, qc: bool, left: nat, t: seq<byte>, bufsize: nat)
    requires QuotedAt(s, p, t, bufsize) && bufsize <= BUFFER_MAX && Survives(t, bufsize) && Cost(t) <= left
    ensures var end := p + |QuoteString(t, bufsize)|;
      SplitFrom(s, p, qc, left) == [Token(t, p, end)] + SplitFrom(s, end, qc, left - Cost(t))
  {
    assert t[..|t|] == t;
    ReadsHeld(s, p, qc, t, bufsize);
    assert SkipSpace(s, p) == p;
  }

  lemma TextsCons(t: Token, rest: seq<Token>, ts: seq<seq<byte>>)
    requires ts != [] && t.text == ts[0] && Texts(rest) == ts[1..]
    ensures Texts([t] + rest) == ts
  {
    assert Texts([t] + rest) == [t.text] + Texts(rest);
  }

  /** The tokens after the first. */
  lemma RestSplits(s: seq<byte>, end: nat, qc: bool, left: nat, rest: seq<seq<byte>>)
    requires if rest == [] then end == |s| else At(s, end, SPACE) && Texts(SplitFrom(s, end + 1, qc, left)) == rest
    ensures end <= |s| && Texts(SplitFrom(s, end, qc, left)) == rest
  {
    if rest != [] { SplitSkips(s, end, qc, left); }
  }

  lemma JoinTokens(s: seq<byte>, p: nat, end: nat, qc: bool, left: nat, rest: nat, t: seq<byte>, ts: seq<seq<byte>>)
    requires p <= |s| && end <= |s| && ts != [] && t == ts[0]
    requires SplitFrom(s, p, qc, left) == [Token(t, p, end)] + SplitFrom(s, end, qc, rest)
    requires Texts(SplitFrom(s, end, qc, rest)) == ts[1..]
    ensures Texts(SplitFrom(s, p, qc, left)) == ts
  {
    TextsCons(Token(t, p, end), SplitFrom(s, end, qc, rest), ts);
  }

  /** The first string is the first token, and the others follow. */
  lemma SplitsFirst(s: seq<byte>, p: nat, end: nat, qc: bool, left: nat, ts: seq<seq<byte>>, bufsize: nat)
    requires ts != [] && bufsize <= BUFFER_MAX && Survives(ts[0], bufsize) && Cost(ts[0]) <= left
    requires QuotedAt(s, p, ts[0], bufsize) && end == p + |QuoteString(ts[0], bufsize)|
    requires if |ts| == 1 then end == |s|
             else At(s, end, SPACE) && Texts(SplitFrom(s, end + 1, qc, left - Cost(ts[0]))) == ts[1..]
    ensures Texts(SplitFrom(s, p, qc, left)) == ts
  {
    SplitsOne(s, p, qc, left, ts[0], bufsize);
    RestSplits(s, end, qc, left - Cost(ts[0]), ts[1..]);
    JoinTokens(s, p, end, qc, left, left - Cost(ts[0]), ts[0], ts);
  }

  /** The quoted strings stand at `p`, separated by spaces, up to the end. */
  predicate JoinedAt(s: seq<byte>, p: nat, ts: seq<seq<byte>>, bufsize: nat)
    decreases |ts|
  {
    if ts == [] then p == |s|
    else
      var end := p + |QuoteString(ts[0], bufsize)|;
      && QuotedAt(s, p, ts[0], bufsize)
      && (if |ts| == 1 then end == |s| else At(s, end, SPACE) && JoinedAt(s, end + 1, ts[1..], bufsize))
  }

  lemma {:induction false} JoinedStands(s: seq<byte>, p: nat, ts: seq<seq<byte>>, bufsize: nat)
    requires p <= |s| && s[p..] == Joined(ts, bufsize)
    ensures JoinedAt(s, p, ts, bufsize)
    decreases |ts|, 1
  {
    if ts == [] {
      assert |s[p..]| == 0;
    } else if |ts| == 1 {
      FirstQuoted(s, p, ts, bufsize);
    } else {
      FirstQuoted(s, p, ts, bufsize);
      JoinedFrom(s, p, p + |QuoteString(ts[0], bufsize)| + 1, ts, bufsize);
    }
  }

  lemma {:induction false} JoinedFrom(s: seq<byte>, p: nat, next: nat, ts: seq<seq<byte>>, bufsize: nat)
    requires |ts| > 1 && next == p + |QuoteString(ts[0], bufsize)| + 1 <= |s|
    requires QuotedAt(s, p, ts[0], bufsize) && At(s, next - 1, SPACE) && s[next..] == Joined(ts[1..], bufsize)
    ensures JoinedAt(s, p, ts, bufsize)
    decreases |ts|, 0
  {
    JoinedStands(s, next, ts[1..], bufsize);
  }

  predicate AllSurvive(ts: seq<seq<byte>>, bufsize: nat) {
    ts == [] || (Survives(ts[0], bufsize) && AllSurvive(ts[1..], bufsize))
  }

  lemma {:induction false} EachSurvives(ts: seq<seq<byte>>, bufsize: nat)
    requires forall t :: t in ts ==> Survives(t, bufsize)
    ensures AllSurvive(ts, bufsize)
  {
    if ts != [] { EachSurvives(ts[1..], bufsize); }
  }

  lemma {:induction false} SplitsJoined(s: seq<byte>, p: nat, qc: bool, left: nat, ts: seq<seq<byte>>, bufsize: nat)
    requires p <= |s| && JoinedAt(s, p, ts, bufsize) && bufsize <= BUFFER_MAX && CostAll(ts) <= left
    requires AllSurvive(ts, bufsize)
    ensures Texts(SplitFrom(s, p, qc, left)) == ts
    decreases |ts|
  {
    if ts != [] {
      var end := p + |QuoteString(ts[0], bufsize)|;
      if |ts| > 1 { SplitsJoined(s, end + 1, qc, left - Cost(ts[0]), ts[1..], bufsize); }
      SplitsFirst(s, p, end, qc, left, ts, bufsize);
    }
  }

  /** Quoting a list of strings, joining them with spaces and tokenizing, in either mode, gives back the
      list. */
  lemma QuoteTokenizeInverse(ts: seq<seq<byte>>, qc: bool, bufsize: nat, budget: nat)
    requires bufsize <= BUFFER_MAX && CostAll(ts) <= budget
    requires forall t :: t in ts ==> Survives(t, bufsize)
    ensures Texts(SplitFrom(Joined(ts, bufsize), 0, qc, budget)) == ts
  {
    EachSurvives(ts, bufsize);
    assert Joined(ts, bufsize)[0..] == Joined(ts, bufsize);
    JoinedStands(Joined(ts, bufsize), 0, ts, bufsize);
    SplitsJoined(Joined(ts, bufsize), 0, qc, budget, ts, bufsize);
  }

  lemma FirstText(s: seq<byte>, p: nat, qc: bool, left: nat)
    requires p < |s| && s[p] > SPACE && Start(s, p, qc) == Some(p) && Cost(TokenAt(s, p, qc).0) <= left
    ensures |SplitFrom(s, p, qc, left)| > 0 && Texts(SplitFrom(s, p, qc, left))[0] == TokenAt(s, p, qc).0
  {
    assert SkipSpace(s, p) == p;
  }

  /** A string that does not survive is read as another one. */
  lemma FirstLost(s: seq<byte>, p: nat, qc: bool, left: nat, ts: seq<seq<byte>>, bufsize: nat)
    requires ts != [] && QuotedAt(s, p, ts[0], bufsize) && bufsize <= BUFFER_MAX
    requires !Survives(ts[0], bufsize) && Cost(ts[0]) <= left
    ensures p <= |s| && Texts(SplitFrom(s, p, qc, left)) != ts
  {
    var t := ts[0];
    if NeedsEscapes(t) && 0 in t[..Held(t, bufsize)] {
      ReadsLess(s, p, qc, t, bufsize);
    } else {
      ReadsHeld(s, p, qc, t, bufsize);
    }
    FirstText(s, p, qc, left);
  }

  lemma JoinedRest(s: seq<byte>, p: nat, ts: seq<seq<byte>>, bufsize: nat)
    requires ts != [] && JoinedAt(s, p, ts, bufsize)
    ensures QuotedAt(s, p, ts[0], bufsize) && CostAll(ts) == Cost(ts[0]) + CostAll(ts[1..])
    ensures |ts| > 1 ==>
              var end := p + |QuoteString(ts[0], bufsize)|; At(s, end, SPACE) && JoinedAt(s, end + 1, ts[1..], bufsize)
  {
  }

  lemma LostInRest(ts: seq<seq<byte>>, bufsize: nat)
    requires !AllSurvive(ts, bufsize) && Survives(ts[0], bufsize)
    ensures |ts| > 1 && !AllSurvive(ts[1..], bufsize)
  {
  }

  /** So the list is read as another one. */
  lemma {:induction false} ListLost(s: seq<byte>, p: nat, qc: bool, left: nat, ts: seq<seq<byte>>, bufsize: nat)
    requires p <= |s| && JoinedAt(s, p, ts, bufsize) && bufsize <= BUFFER_MAX && CostAll(ts) <= left
    requires !AllSurvive(ts, bufsize)
    ensures Texts(SplitFrom(s, p, qc, left)) != ts
    decreases |ts|
  {
    JoinedRest(s, p, ts, bufsize);
    if Survives(ts[0], bufsize) {
      var end, rest: nat := p + |QuoteString(ts[0], bufsize)|, left - Cost(ts[0]);
      LostInRest(ts, bufsize);
      ListLost(s, end + 1, qc, rest, ts[1..], bufsize);
      LostLater(s, p, end, qc, left, rest, ts, bufsize);
    } else {
      FirstLost(s, p, qc, left, ts, bufsize);
    }
  }

  lemma LostLater(s: seq<byte>, p: nat, end: nat, qc: bool, left: nat, rest: nat, ts: seq<seq<byte>>, bufsize: nat)
    requires ts != [] && bufsize <= BUFFER_MAX && Survives(ts[0], bufsize) && left == Cost(ts[0]) + rest
    requires QuotedAt(s, p, ts[0], bufsize) && end == p + |QuoteString(ts[0], bufsize)|
    requires At(s, end, SPACE) && Texts(SplitFrom(s, end + 1, qc, rest)) != ts[1..]
    ensures Texts(SplitFrom(s, p, qc, left)) != ts
  {
    SplitsOne(s, p, qc, left, ts[0], bufsize);
    SplitSkips(s, end, qc, rest);
    RestDiffers(Token(ts[0], p, end), SplitFrom(s, end, qc, rest), SplitFrom(s, p, qc, left), ts);
  }

  lemma RestDiffers(t: Token, rest: seq<Token>, all: seq<Token>, ts: seq<seq<byte>>)
    requires all == [t] + rest && ts != [] && Texts(rest) != ts[1..]
    ensures Texts(all) != ts
  {
    assert Texts(all) == [t.text] + Texts(rest);
    assert ([t.text] + Texts(rest))[1..] == Texts(rest);
  }

  lemma {:induction false} SurvivorsOnly(ts: seq<seq<byte>>, bufsize: nat)
    requires AllSurvive(ts, bufsize)
    ensures forall t :: t in ts ==> Survives(t, bufsize)
  {
    if ts != [] {
      SurvivorsOnly(ts[1..], bufsize);
      assert ts == [ts[0]] + ts[1..];
    }
  }

  /** A list of strings is read back exactly when each fits and has no NUL that would have to be
      escaped. */
  lemma ReadBackExactly(ts: seq<seq<byte>>, qc: bool, bufsize: nat, budget: nat)
    requires bufsize <= BUFFER_MAX && CostAll(ts) <= budget
    ensures Texts(SplitFrom(Joined(ts, bufsize), 0, qc, budget)) == ts <==> forall t :: t in ts ==> Survives(t, bufsize)
  {
    if AllSurvive(ts, bufsize) {
      SurvivorsOnly(ts, bufsize);
      QuoteTokenizeInverse(ts, qc, bufsize, budget);
    } else {
      var s := Joined(ts, bufsize);
      assert s[0..] == s;
      JoinedStands(s, 0, ts, bufsize);
      ListLost(s, 0, qc, budget, ts, bufsize);
      if forall t :: t in ts ==> Survives(t, bufsize) { EachSurvives(ts, bufsize); }
    }
  }
}
