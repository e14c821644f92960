/** The parser of user/sh.c, method by method, against the grammar; false stands for panic(). */
module ShellParse {
  import opened ShellLex
  import opened ShellSpec

  /** cmd->argv[argc] = q through the pointer that parseexec() keeps to the innermost command */
  function SetArgs(node: Node, args: seq<Span>): Node {
    match node
    case Exec(_) => Exec(args)
    case Redir(c, r) => Redir(SetArgs(c, args), r)
    case Pipe(_, _) => node
    case List(_, _) => node
    case Back(_) => node
  }

  lemma {:induction false} SetArgsWrap(n: Node, rs: seq<Redirection>, args: seq<Span>)
    ensures SetArgs(Wrap(n, rs), args) == Wrap(SetArgs(n, args), rs)
    decreases |rs|
  {
    if rs != [] { SetArgsWrap(Redir(n, rs[0]), rs[1..], args); }
  }

  lemma {:induction false} WrapMore(n: Node, rs: seq<Redirection>, more: seq<Redirection>)
    ensures Wrap(Wrap(n, rs), more) == Wrap(n, rs + more)
    decreases |rs|
  {
    if rs != [] {
      assert (rs + more)[1..] == rs[1..] + more;
      WrapMore(Redir(n, rs[0]), rs[1..], more);
    } else {
      assert rs + more == more;
    }
  }

  /** What a parsing method promises: the grammar's result, and where the rest starts. */
  ghost predicate Parsed(s: string, ok: bool, node: Node, next: nat, r: Result) {
    if ok then next <= |s| && r == Ok(node, Lex(s, next)) else r == Fail
  }

  method Parseredirs(s: string, p: nat, cmd: Node) returns (ok: bool, node: Node, next: nat)
    requires p <= |s| && NUL !in s
    ensures ok <==> Redirs(Lex(s, p)).Some?
    ensures ok ==> p <= next <= |s| && node == Wrap(cmd, Redirs(Lex(s, p)).rs) && Lex(s, next) == Redirs(Lex(s, p)).rest
  {
    hide Lex, Wrap;
    node, next := cmd, p;
    ghost var seen: seq<Redirection> := [];
    WrapNone(cmd);
    var more;
    more, next := Peek(s, next, "<>");
    while more
      invariant p <= next <= |s| && node == Wrap(cmd, seen) && (more <==> StartsIn(Lex(s, next), "<>"))
      invariant Continues(Lex(s, p), seen, Lex(s, next))
      decreases |Lex(s, next)|
    {
      ghost var ts := Lex(s, next);
      var tok, q, eq;
      tok, q, eq, next := Gettoken(s, next);
      var ret;
      ret, q, eq, next := Gettoken(s, next);
      if ret != 'a' {
        return false, node, next;
      }
      ghost var r := R(ModeOf(tok), Span(q, eq));
      node := Redir(node, R(ModeOf(tok), Span(q, eq)));
      WrapLast(cmd, seen, r);
      ContinuesMore(Lex(s, p), seen, ts, r);
      seen := seen + [r];
      more, next := Peek(s, next, "<>");
    }
    ok := true;
    assert seen + [] == seen;
  }

  lemma WrapNone(n: Node)
    ensures Wrap(n, []) == n
  {
  }

  lemma WrapLast(n: Node, rs: seq<Redirection>, r: Redirection)
    ensures Wrap(n, rs + [r]) == Redir(Wrap(n, rs), r)
  {
    WrapMore(n, rs, [r]);
    assert [r][1..] == [];
    assert Wrap(Wrap(n, rs), [r]) == Wrap(Redir(Wrap(n, rs), r), []);
  }

  /** `seen` redirections lead from ts to rest. */
  ghost predicate Continues(ts: seq<Tok>, seen: seq<Redirection>, rest: seq<Tok>) {
    match Redirs(rest)
    case Missing => Redirs(ts) == Missing
    case Some(rs, last) => Redirs(ts) == Some(seen + rs, last)
  }

  lemma ContinuesMore(ts: seq<Tok>, seen: seq<Redirection>, rest: seq<Tok>, r: Redirection)
    requires Continues(ts, seen, rest) && |rest| >= 2 && IsRedir(rest[0].kind) && rest[1].kind == 'a'
    requires r == R(ModeOf(rest[0].kind), Span(rest[1].lo, rest[1].hi))
    ensures Continues(ts, seen + [r], rest[2..])
  {
    if Redirs(rest[2..]).Some? { assert seen + ([r] + Redirs(rest[2..]).rs) == (seen + [r]) + Redirs(rest[2..]).rs; }
  }

  method Parseexec(s: string, p: nat) returns (ok: bool, node: Node, next: nat)
    requires p <= |s| && NUL !in s
    ensures Parsed(s, ok, node, next, ExecP(Lex(s, p)))
    decreases |Lex(s, p)|, 1
  {
    hide Lex, Wrap, Redirs, Args, Block, SetArgs;
    var paren;
    paren, next := Peek(s, p, "(");
    if paren {
      ok, node, next := Parseblock(s, next);
      return;
    }
    var args: seq<Span> := [];
    ok, node, next := Parseredirs(s, next, Exec(args));
    if !ok {
      return;
    }
    ghost var rs := Redirs(Lex(s, p)).rs;
    var stop;
    stop, next := Peek(s, next, "|)&;");
    while !stop
      invariant next <= |s| && ok && node == Wrap(Exec(args), rs) && ExecP(Lex(s, p)) == Args(args, rs, Lex(s, next))
      invariant (stop <==> StartsIn(Lex(s, next), "|)&;")) && |Lex(s, next)| <= |Lex(s, p)|
      decreases |Lex(s, next)|
    {
      ghost var ts := Lex(s, next);
      var tok, q, eq;
      tok, q, eq, next := Gettoken(s, next);
      if tok == NUL {
        break;
      }
      ArgsOnce(args, rs, ts);
      if tok != 'a' {
        return false, node, next;
      }
      SetArgsWrap(Exec(args), rs, args + [Span(q, eq)]);
      args := args + [Span(q, eq)];
      node := SetArgs(node, args);
      ExecSet(args);
      if |args| >= MAXARGS {
        return false, node, next;
      }
      ghost var after := Lex(s, next);
      ok, node, next := Parseredirs(s, next, node);
      if !ok {
        return;
      }
      WrapMore(Exec(args), rs, Redirs(after).rs);
      rs := rs + Redirs(after).rs;
      stop, next := Peek(s, next, "|)&;");
    }
    ArgsStop(args, rs, Lex(s, next));
  }

  lemma ExecSet(args: seq<Span>)
    ensures forall was: seq<Span> :: SetArgs(Exec(was), args) == Exec(args)
  {
  }

  lemma ArgsOnce(args: seq<Span>, rs: seq<Redirection>, ts: seq<Tok>)
    requires ts != [] && !StartsIn(ts, "|)&;")
    ensures ts[0].kind != 'a' || |args| + 1 >= MAXARGS ==> Args(args, rs, ts) == Fail
    ensures ts[0].kind == 'a' && |args| + 1 < MAXARGS ==>
              Args(args, rs, ts) == if Redirs(ts[1..]).Missing? then Fail
                                    else Args(args + [Span(ts[0].lo, ts[0].hi)], rs + Redirs(ts[1..]).rs,
                                              Redirs(ts[1..]).rest)
  {
    hide Redirs;
  }

  lemma ArgsStop(args: seq<Span>, rs: seq<Redirection>, ts: seq<Tok>)
    requires ts == [] || StartsIn(ts, "|)&;")
    ensures Args(args, rs, ts) == Ok(Wrap(Exec(args), rs), ts)
  {
  }

  method Parseblock(s: string, p: nat) returns (ok: bool, node: Node, next: nat)
    requires p <= |s| && NUL !in s && Lex(s, p) != [] && Lex(s, p)[0].kind == '('
    ensures Parsed(s, ok, node, next, Block(Lex(s, p)))
    decreases |Lex(s, p)|, 0
  {
    hide Lex, Wrap, Redirs, Line;
    ok, next := Peek(s, p, "(");
    var tok, q, eq;
    tok, q, eq, next := Gettoken(s, next);
    ok, node, next := Parseline(s, next);
    if !ok {
      return;
    }
    ok, next := Peek(s, next, ")");
    if !ok {
      return;
    }
    tok, q, eq, next := Gettoken(s, next);
    ok, node, next := Parseredirs(s, next, node);
  }

  method Parsepipe(s: string, p: nat) returns (ok: bool, node: Node, next: nat)
    requires p <= |s| && NUL !in s
    ensures Parsed(s, ok, node, next, PipeP(Lex(s, p)))
    decreases |Lex(s, p)|, 2
  {
    hide Lex, ExecP;
    ok, node, next := Parseexec(s, p);
    if !ok {
      return;
    }
    var more;
    more, next := Peek(s, next, "|");
    if more {
      var tok, q, eq;
      tok, q, eq, next := Gettoken(s, next);
      var right;
      ok, right, next := Parsepipe(s, next);
      node := Pipe(node, right);
    }
  }

  method Parseline(s: string, p: nat) returns (ok: bool, node: Node, next: nat)
    requires p <= |s| && NUL !in s
    ensures Parsed(s, ok, node, next, Line(Lex(s, p)))
    decreases |Lex(s, p)|, 3
  {
    hide Lex, PipeP, Backs;
    ok, node, next := Parsepipe(s, p);
    if !ok {
      return;
    }
    ghost var first, rest := node, Lex(s, next);
    var more;
    more, next := Peek(s, next, "&");
    while more
      invariant next <= |s| && Backs(first, rest) == Backs(node, Lex(s, next))
                && (more <==> StartsIn(Lex(s, next), "&"))
      invariant |Lex(s, next)| <= |rest|
      decreases |Lex(s, next)|
    {
      var tok, q, eq;
      BacksMore(node, Lex(s, next));
      tok, q, eq, next := Gettoken(s, next);
      node := Back(node);
      more, next := Peek(s, next, "&");
    }
    BacksDone(node, Lex(s, next));
    more, next := Peek(s, next, ";");
    if more {
      var tok, q, eq;
      tok, q, eq, next := Gettoken(s, next);
      var right;
      ok, right, next := Parseline(s, next);
      node := List(node, right);
    }
  }

  lemma BacksMore(n: Node, ts: seq<Tok>)
    requires StartsIn(ts, "&")
    ensures Backs(n, ts) == Backs(Back(n), ts[1..])
  {
  }

  lemma BacksDone(n: Node, ts: seq<Tok>)
    requires !StartsIn(ts, "&")
    ensures Backs(n, ts) == (n, ts)
  {
  }

  // ----- nulterminate() -----

  /** The spans of all words and file names. */
  function Spans(n: Node): set<Span> {
    match n
    case Exec(args) => set i | 0 <= i < |args| :: args[i]
    case Redir(c, r) => Spans(c) + {r.file}
    case Pipe(l, r) => Spans(l) + Spans(r)
    case List(l, r) => Spans(l) + Spans(r)
    case Back(c) => Spans(c)
  }

  /** Is position i the end of one of these words? */
  ghost predicate EndsAt(spans: set<Span>, i: nat) {
    exists w :: w in spans && w.hi == i
  }

  /** nulterminate(): a NUL behind every word, and nothing else changes. */
  method Nulterminate(buf: array<char>, n: Node)
    requires forall w :: w in Spans(n) ==> w.hi < buf.Length
    modifies buf
    ensures forall i :: 0 <= i < buf.Length ==> buf[i] == if EndsAt(Spans(n), i) then NUL else old(buf[i])
    decreases n
  {
    match n
    case Exec(args) =>
      var k := 0;
      while k < |args|
        invariant 0 <= k <= |args|
        invariant forall i :: 0 <= i < buf.Length ==>
                    buf[i] == if EndsAt(set j | 0 <= j < k :: args[j], i) then NUL else old(buf[i])
      {
        assert args[k] in Spans(n);
        buf[args[k].hi] := NUL;
        assert (set j | 0 <= j < k + 1 :: args[j]) == (set j | 0 <= j < k :: args[j]) + {args[k]};
        k := k + 1;
      }
    case Redir(c, r) =>
      Nulterminate(buf, c);
      buf[r.file.hi] := NUL;
    case Pipe(l, r) =>
      Nulterminate(buf, l);
      Nulterminate(buf, r);
    case List(l, r) =>
      Nulterminate(buf, l);
      Nulterminate(buf, r);
    case Back(c) =>
      Nulterminate(buf, c);
  }

  // ----- every word in the tree is a word of the line -----

  ghost predicate WordToks(s: string, ts: seq<Tok>) {
    forall i :: 0 <= i < |ts| && ts[i].kind == 'a' ==> WordAt(s, ts[i].lo, ts[i].hi)
  }

  ghost predicate WordSpans(s: string, n: Node) {
    forall w :: w in Spans(n) ==> WordAt(s, w.lo, w.hi)
  }

  ghost predicate WordResult(s: string, r: Result) {
    r.Ok? ==> WordSpans(s, r.node) && WordToks(s, r.rest)
  }

  ghost predicate WordRedirs(s: string, rs: seq<Redirection>) {
    forall i :: 0 <= i < |rs| ==> WordAt(s, rs[i].file.lo, rs[i].file.hi)
  }

  lemma {:induction false} RedirsWords(s: string, ts: seq<Tok>)
    requires WordToks(s, ts)
    ensures Redirs(ts).Some? ==> WordRedirs(s, Redirs(ts).rs) && WordToks(s, Redirs(ts).rest)
    decreases |ts|
  {
    hide WordAt;
    if |ts| >= 2 && IsRedir(ts[0].kind) && ts[1].kind == 'a' { RedirsWords(s, ts[2..]); }
  }

  lemma {:induction false} WrapWords(s: string, n: Node, rs: seq<Redirection>)
    requires WordSpans(s, n) && WordRedirs(s, rs)
    ensures WordSpans(s, Wrap(n, rs))
    decreases |rs|
  {
    hide WordAt;
    if rs != [] { WrapWords(s, Redir(n, rs[0]), rs[1..]); }
  }

  lemma {:induction false} ArgsWords(s: string, args: seq<Span>, rs: seq<Redirection>, ts: seq<Tok>)
    requires WordSpans(s, Exec(args)) && WordRedirs(s, rs) && WordToks(s, ts)
    ensures WordResult(s, Args(args, rs, ts))
    decreases |ts|
  {
    hide WordAt, Redirs;
    if ts == [] || Stop(ts[0].kind) {
      WrapWords(s, Exec(args), rs);
    } else if ts[0].kind == 'a' && |args| + 1 < MAXARGS {
      RedirsWords(s, ts[1..]);
      if Redirs(ts[1..]).Some? {
        var a := Span(ts[0].lo, ts[0].hi);
        assert Spans(Exec(args + [a])) == Spans(Exec(args)) + {a} by { SpansSnoc(args, a); }
        ArgsWords(s, args + [a], rs + Redirs(ts[1..]).rs, Redirs(ts[1..]).rest);
      }
    }
  }

  lemma SpansSnoc(args: seq<Span>, a: Span)
    ensures Spans(Exec(args + [a])) == Spans(Exec(args)) + {a}
  {
    var x, y := Spans(Exec(args + [a])), Spans(Exec(args));
    forall w | w in y + {a} ensures w in x {
      if w == a {
        assert (args + [a])[|args|] == a;
      } else {
        var i :| 0 <= i < |args| && args[i] == w;
        assert (args + [a])[i] == w;
      }
    }
    forall w | w in x ensures w in y + {a} {
      var i :| 0 <= i < |args + [a]| && (args + [a])[i] == w;
      if i < |args| { assert args[i] == w; }
    }
  }

  lemma {:induction false} ExecWords(s: string, ts: seq<Tok>)
    requires WordToks(s, ts)
    ensures WordResult(s, ExecP(ts))
    decreases |ts|, 1
  {
    hide WordAt, Redirs, Args, Block;
    if ts != [] && ts[0].kind == '(' {
      BlockWords(s, ts);
    } else {
      RedirsWords(s, ts);
      if Redirs(ts).Some? { ArgsWords(s, [], Redirs(ts).rs, Redirs(ts).rest); }
    }
  }

  lemma {:induction false} BlockWords(s: string, ts: seq<Tok>)
    requires WordToks(s, ts) && ts != [] && ts[0].kind == '('
    ensures WordResult(s, Block(ts))
    decreases |ts|, 0
  {
    hide WordAt, Redirs, Line;
    LineWords(s, ts[1..]);
    if Line(ts[1..]).Ok? {
      var rest := Line(ts[1..]).rest;
      if rest != [] && rest[0].kind == ')' {
        RedirsWords(s, rest[1..]);
        if Redirs(rest[1..]).Some? { WrapWords(s, Line(ts[1..]).node, Redirs(rest[1..]).rs); }
      }
    }
  }

  lemma {:induction false} PipeWords(s: string, ts: seq<Tok>)
    requires WordToks(s, ts)
    ensures WordResult(s, PipeP(ts))
    decreases |ts|, 2
  {
    hide WordAt, ExecP;
    ExecWords(s, ts);
    if ExecP(ts).Ok? {
      var rest := ExecP(ts).rest;
      if rest != [] && rest[0].kind == '|' { PipeWords(s, rest[1..]); }
    }
  }

  lemma {:induction false} BacksWords(s: string, n: Node, ts: seq<Tok>)
    requires WordSpans(s, n) && WordToks(s, ts)
    ensures WordSpans(s, Backs(n, ts).0) && WordToks(s, Backs(n, ts).1)
    decreases |ts|
  {
    hide WordAt;
    if ts != [] && ts[0].kind == '&' { BacksWords(s, Back(n), ts[1..]); }
  }

  lemma {:induction false} LineWords(s: string, ts: seq<Tok>)
    requires WordToks(s, ts)
    ensures WordResult(s, Line(ts))
    decreases |ts|, 3
  {
    hide WordAt, PipeP, Backs;
    PipeWords(s, ts);
    if PipeP(ts).Ok? {
      BacksWords(s, PipeP(ts).node, PipeP(ts).rest);
      var after := Backs(PipeP(ts).node, PipeP(ts).rest).1;
      if after != [] && after[0].kind == ';' { LineWords(s, after[1..]); }
    }
  }

  // ----- parsecmd() -----

  /** strlen() */
  method Strlen(buf: array<char>) returns (n: nat)
    requires NUL in buf[..]
    ensures n < buf.Length && buf[n] == NUL && NUL !in buf[..n]
  {
    n := 0;
    while buf[n] != NUL
      invariant 0 <= n < buf.Length && NUL !in buf[..n] && NUL in buf[n..]
      decreases buf.Length - n
    {
      n := n + 1;
    }
  }

  /** parsecmd() on a NUL-terminated buffer: the grammar's tree, with every word terminated in place and
      no byte of any word changed; false is panic("syntax") or a panic below. */
  method Parsecmd(buf: array<char>) returns (ok: bool, node: Node, ghost s: string)
    requires NUL in buf[..]
    modifies buf
    ensures NUL !in s && |s| < buf.Length && s == old(buf[..|s|]) && old(buf[|s|]) == NUL
    ensures Command(Lex(s, 0)) == if ok then Ok(node, []) else Fail
    ensures ok ==> forall w :: w in Spans(node) ==>
              WordAt(s, w.lo, w.hi) && w.hi < buf.Length && buf[w.hi] == NUL && buf[w.lo..w.hi] == s[w.lo..w.hi]
    ensures !ok ==> buf[..] == old(buf[..])
  {
    hide Lex, Line, WordAt, Spans;
    var n := Strlen(buf);
    var line := buf[..n];
    s := line;
    var next;
    ok, node, next := Parseline(line, 0);
    if !ok {
      return;
    }
    var any;
    any, next := Peek(line, next, "");
    if next != n {
      ok := false;
      return;
    }
    LexToks(s);
    LineWords(s, Lex(s, 0));
    SpanBounds(s, node);
    Nulterminate(buf, node);
    forall w | w in Spans(node) ensures buf[w.hi] == NUL && buf[w.lo..w.hi] == s[w.lo..w.hi] {
      Untouched(s, Spans(node), w);
      assert EndsAt(Spans(node), w.hi);
      assert forall i :: w.lo <= i < w.hi ==> buf[i] == s[i];
    }
  }

  lemma LexToks(s: string)
    ensures WordToks(s, Lex(s, 0))
  {
    hide Lex, WordAt;
    forall i | 0 <= i < |Lex(s, 0)| && Lex(s, 0)[i].kind == 'a' ensures WordAt(s, Lex(s, 0)[i].lo, Lex(s, 0)[i].hi) {
      LexWords(s, 0, i);
    }
  }

  lemma SpanBounds(s: string, n: Node)
    requires WordSpans(s, n)
    ensures forall w :: w in Spans(n) ==> w.lo < w.hi <= |s|
  {
    hide Spans;
  }

  /** No word ends inside another: its end is white, a symbol, or the end of the line. */
  lemma Untouched(s: string, spans: set<Span>, w: Span)
    requires w in spans && forall v :: v in spans ==> WordAt(s, v.lo, v.hi)
    ensures forall i :: w.lo <= i < w.hi ==> !EndsAt(spans, i)
  {
    forall i | w.lo <= i < w.hi ensures !EndsAt(spans, i) {
      assert Plain(s[i]);
      forall v | v in spans ensures v.hi != i { assert WordAt(s, v.lo, v.hi); }
    }
  }
}
