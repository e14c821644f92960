/** Tokens of user/sh.c.  The command line is a sequence without its NUL; positions are offsets into it,
    and position |s| is where the NUL is. */
module ShellLex {
  const NUL: char := '\0'

  predicate White(c: char) { c == ' ' || c == '\t' || c == '\r' || c == '\n' || c == 11 as char }

  predicate Symbol(c: char) { c == '<' || c == '|' || c == '>' || c == '&' || c == ';' || c == '(' || c == ')' }

  predicate Plain(c: char) { !White(c) && !Symbol(c) }

  /** kind 'a' is a word, '+' is >>, any other kind the symbol itself; the text is s[lo..hi]. */
  datatype Tok = Tok(kind: char, lo: nat, hi: nat)

  function SkipWhite(s: string, p: nat): (q: nat)
    requires p <= |s|
    ensures p <= q <= |s|
    decreases |s| - p
  {
    if p < |s| && White(s[p]) then SkipWhite(s, p + 1) else p
  }

  function SkipPlain(s: string, p: nat): (q: nat)
    requires p <= |s|
    ensures p <= q <= |s|
    decreases |s| - p
  {
    if p < |s| && Plain(s[p]) then SkipPlain(s, p + 1) else p
  }

  /** The token that starts at a position that is not white. */
  function TokAt(s: string, p: nat): (t: Tok)
    requires p < |s| && !White(s[p])
    ensures t.lo == p < t.hi <= |s|
  {
    if s[p] == '>' && p + 1 < |s| && s[p + 1] == '>' then Tok('+', p, p + 2)
    else if Symbol(s[p]) then Tok(s[p], p, p + 1)
    else Tok('a', p, SkipPlain(s, p + 1))
  }

  function Lex(s: string, p: nat): (ts: seq<Tok>)
    requires p <= |s|
    decreases |s| - p
  {
    var q := SkipWhite(s, p);
    if q == |s| then [] else WhiteStop(s, p); [TokAt(s, q)] + Lex(s, TokAt(s, q).hi)
  }

  lemma {:induction false} WhiteStop(s: string, p: nat)
    requires p <= |s|
    ensures var q := SkipWhite(s, p); q < |s| ==> !White(s[q])
    decreases |s| - p
  {
    if p < |s| && White(s[p]) { WhiteStop(s, p + 1); }
  }

  lemma {:induction false} WhiteOnce(s: string, p: nat)
    requires p <= |s|
    ensures SkipWhite(s, SkipWhite(s, p)) == SkipWhite(s, p)
    decreases |s| - p
  {
    if p < |s| && White(s[p]) { WhiteOnce(s, p + 1); }
  }

  /** Skipping white space first does not change the tokens. */
  lemma LexSkip(s: string, p: nat)
    requires p <= |s|
    ensures Lex(s, SkipWhite(s, p)) == Lex(s, p)
  {
    WhiteOnce(s, p);
  }

  /** First character of a token, as peek() sees it; a word never starts with a symbol. */
  function First(t: Tok): char { if t.kind == '+' then '>' else t.kind }

  ghost predicate StartsIn(ts: seq<Tok>, toks: string) {
    ts != [] && First(ts[0]) in toks
  }

  /** Past the white space */
  method Skip(s: string, p: nat) returns (q: nat)
    requires p <= |s|
    ensures q == SkipWhite(s, p)
  {
    q := p;
    while q < |s| && White(s[q])
      invariant p <= q <= |s| && SkipWhite(s, q) == SkipWhite(s, p)
    {
      q := q + 1;
    }
  }

  method Gettoken(s: string, p: nat) returns (ret: char, q: nat, eq: nat, next: nat)
    requires p <= |s| && NUL !in s
    ensures p <= q <= eq <= next <= |s| && Lex(s, next) == if Lex(s, p) == [] then [] else Lex(s, p)[1..]
    ensures ret == NUL <==> Lex(s, p) == []
    ensures if Lex(s, p) == [] then ret == NUL
            else ret == Lex(s, p)[0].kind && q == Lex(s, p)[0].lo && eq == Lex(s, p)[0].hi
  {
    q := Skip(s, p);
    WhiteStop(s, p);
    var i := q;
    if i == |s| {
      ret := NUL;
    } else {
      ret := s[i];
      if s[i] == '>' {
        i := i + 1;
        if i < |s| && s[i] == '>' {
          ret := '+';
          i := i + 1;
        }
      } else if s[i] == '|' || s[i] == '(' || s[i] == ')' || s[i] == ';' || s[i] == '&' || s[i] == '<' {
        i := i + 1;
      } else {
        ret := 'a';
        assert Plain(s[i]);
        while i < |s| && !White(s[i]) && !Symbol(s[i])
          invariant q <= i <= |s| && SkipPlain(s, i) == SkipPlain(s, q)
        {
          i := i + 1;
        }
        assert i == SkipPlain(s, q + 1);
      }
    }
    eq := i;
    next := Skip(s, i);
    LexSkip(s, i);
  }

  method Peek(s: string, p: nat, toks: string) returns (r: bool, next: nat)
    requires p <= |s| && NUL !in s && forall c :: c in toks ==> Symbol(c)
    ensures p <= next <= |s| && Lex(s, next) == Lex(s, p) && (r <==> StartsIn(Lex(s, p), toks))
    ensures next == |s| <==> Lex(s, p) == []
  {
    next := Skip(s, p);
    WhiteStop(s, p);
    LexSkip(s, p);
    r := next < |s| && s[next] in toks;
  }

  // ----- words -----

  /** A maximal stretch of plain characters. */
  ghost predicate WordAt(s: string, lo: nat, hi: nat) {
    && lo < hi <= |s| && (forall i :: lo <= i < hi ==> Plain(s[i])) && (hi < |s| ==> !Plain(s[hi]))
  }

  lemma {:induction false} PlainStop(s: string, p: nat)
    requires p <= |s|
    ensures var q := SkipPlain(s, p); (q < |s| ==> !Plain(s[q])) && forall i :: p <= i < q ==> Plain(s[i])
    decreases |s| - p
  {
    if p < |s| && Plain(s[p]) { PlainStop(s, p + 1); }
  }

  /** Every word token is a maximal stretch of plain characters. */
  lemma {:induction false} LexWords(s: string, p: nat, k: nat)
    requires p <= |s| && k < |Lex(s, p)| && Lex(s, p)[k].kind == 'a'
    ensures WordAt(s, Lex(s, p)[k].lo, Lex(s, p)[k].hi)
    decreases |s| - p
  {
    var q := SkipWhite(s, p);
    WhiteStop(s, p);
    if k == 0 {
      PlainStop(s, q + 1);
    } else {
      LexWords(s, TokAt(s, q).hi, k - 1);
    }
  }

  // ----- rendering -----

  /** A token without its position. */
  datatype T = W(w: string) | S(kind: char)

  ghost predicate Word(w: string) { w != "" && forall i :: 0 <= i < |w| ==> Plain(w[i]) }

  ghost predicate GoodT(t: T) {
    match t
    case W(w) => Word(w)
    case S(k) => Symbol(k) || k == '+'
  }

  function View(s: string, t: Tok): T
    requires t.lo <= t.hi <= |s|
  {
    if t.kind == 'a' then W(s[t.lo..t.hi]) else S(t.kind)
  }

  ghost predicate Within(s: string, ts: seq<Tok>) {
    forall i :: 0 <= i < |ts| ==> ts[i].lo <= ts[i].hi <= |s|
  }

  ghost function Views(s: string, ts: seq<Tok>): (vs: seq<T>)
    requires Within(s, ts)
    ensures |vs| == |ts|
  {
    seq(|ts|, i requires 0 <= i < |ts| => View(s, ts[i]))
  }

  lemma {:induction false} LexWithin(s: string, p: nat)
    requires p <= |s|
    ensures Within(s, Lex(s, p))
    decreases |s| - p
  {
    var q := SkipWhite(s, p);
    WhiteStop(s, p);
    if q < |s| { LexWithin(s, TokAt(s, q).hi); }
  }

  function TextOf(t: T): string {
    match t
    case W(w) => w
    case S(k) => if k == '+' then ">>" else [k]
  }

  /** Each token followed by a blank. */
  function Render(ts: seq<T>): string {
    if ts == [] then "" else TextOf(ts[0]) + " " + Render(ts[1..])
  }

  lemma {:induction false} PlainRun(s: string, p: nat, q: nat)
    requires p <= q <= |s| && (forall i :: p <= i < q ==> Plain(s[i])) && (q < |s| ==> !Plain(s[q]))
    ensures SkipPlain(s, p) == q
    decreases q - p
  {
    if p < q { PlainRun(s, p + 1, q); }
  }

  /** One rendered token is read back as itself. */
  lemma TokRendered(s: string, p: nat, t: T)
    requires GoodT(t) && p + |TextOf(t)| < |s| && s[p..p + |TextOf(t)|] == TextOf(t) && s[p + |TextOf(t)|] == ' '
    ensures !White(s[p]) && TokAt(s, p).hi == p + |TextOf(t)| && View(s, TokAt(s, p)) == t
  {
    var n := |TextOf(t)|;
    assert s[p..p + n][0] == s[p];
    match t
    case W(w) =>
      forall i | p <= i < p + n ensures Plain(s[i]) { assert s[i] == s[p..p + n][i - p]; }
      PlainRun(s, p + 1, p + n);
    case S(k) =>
      if k == '+' { assert s[p..p + n][1] == s[p + 1]; }
  }

  /** Lexing a rendering gives the tokens back. */
  lemma {:induction false} LexRender(s: string, p: nat, ts: seq<T>)
    requires p <= |s| && s[p..] == Render(ts) && forall i :: 0 <= i < |ts| ==> GoodT(ts[i])
    ensures Within(s, Lex(s, p)) && Views(s, Lex(s, p)) == ts
    decreases |ts|
  {
    hide Lex, Views, TextOf, Render;
    LexWithin(s, p);
    if ts == [] {
      LexEnd(s, p);
    } else {
      var n := |TextOf(ts[0])|;
      RenderFirst(s, p, ts);
      TokRendered(s, p, ts[0]);
      LexRender(s, p + n + 1, ts[1..]);
      LexBlank(s, p + n);
      LexStep(s, p);
      ViewsStep(s, TokAt(s, p), Lex(s, p + n));
    }
  }

  lemma LexEnd(s: string, p: nat)
    requires p <= |s| && s[p..] == Render([])
    ensures Lex(s, p) == [] && Within(s, []) && Views(s, []) == []
  {
  }

  lemma LexStep(s: string, p: nat)
    requires p < |s| && !White(s[p])
    ensures Lex(s, p) == [TokAt(s, p)] + Lex(s, TokAt(s, p).hi)
  {
  }

  lemma ViewsStep(s: string, t: Tok, ts: seq<Tok>)
    requires Within(s, ts) && t.lo <= t.hi <= |s|
    ensures Within(s, [t] + ts) && Views(s, [t] + ts) == [View(s, t)] + Views(s, ts)
  {
  }

  lemma RenderFirst(s: string, p: nat, ts: seq<T>)
    requires p <= |s| && ts != [] && s[p..] == Render(ts)
    ensures var n := |TextOf(ts[0])|;
            p + n < |s| && s[p..p + n] == TextOf(ts[0]) && s[p + n] == ' ' && s[p + n + 1..] == Render(ts[1..])
  {
    hide TextOf;
    var n := |TextOf(ts[0])|;
    var r := s[p..];
    assert r == TextOf(ts[0]) + " " + Render(ts[1..]);
    assert r[..n] == TextOf(ts[0]) && r[n] == ' ' && r[n + 1..] == Render(ts[1..]);
    assert s[p..p + n] == r[..n] && s[p + n] == r[n] && s[p + n + 1..] == r[n + 1..];
  }

  lemma LexBlank(s: string, p: nat)
    requires p < |s| && White(s[p])
    ensures Lex(s, p) == Lex(s, p + 1)
  {
  }

  // ----- the characters that matter -----

  const WHITESPACE: string := " \t\r\n" + [11 as char]
  const SYMBOLS: string := "<|>&;()"

  /** A line has no tokens exactly if it is blank. */
  lemma {:induction false} NoTokens(s: string, p: nat)
    requires p <= |s|
    ensures Lex(s, p) == [] <==> forall i :: p <= i < |s| ==> s[i] in WHITESPACE
    decreases |s| - p
  {
    if p < |s| && s[p] in WHITESPACE {
      LexBlank(s, p);
      NoTokens(s, p + 1);
    }
  }

  /** It is a single word, from end to end, exactly if it has neither white space nor symbols. */
  lemma OneWord(s: string)
    ensures Lex(s, 0) == [Tok('a', 0, |s|)] <==> s != "" && forall i :: 0 <= i < |s| ==> s[i] !in WHITESPACE + SYMBOLS
  {
    forall c ensures Plain(c) <==> c !in WHITESPACE + SYMBOLS { }
    if s != "" && forall i :: 0 <= i < |s| ==> Plain(s[i]) {
      PlainRun(s, 1, |s|);
      LexEnd(s, |s|);
    }
    if Lex(s, 0) == [Tok('a', 0, |s|)] { LexWords(s, 0, 0); }
  }
}
