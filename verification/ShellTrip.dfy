/** Printing a command tree and parsing it gives the tree back. */
module ShellTrip {
  import opened ShellLex
  import opened ShellSpec

  /** The tokens start with `vs`. */
  ghost predicate Begins(s: string, ts: seq<Tok>, vs: seq<T>) {
    Within(s, ts) && |vs| <= |ts| && forall i :: 0 <= i < |vs| ==> View(s, ts[i]) == vs[i]
  }

  lemma BeginsSplit(s: string, ts: seq<Tok>, a: seq<T>, b: seq<T>)
    requires Begins(s, ts, a + b)
    ensures Begins(s, ts, a) && Begins(s, ts[|a|..], b) && ts[|a|..][|b|..] == ts[|a + b|..]
  {
    forall i | 0 <= i < |a| ensures View(s, ts[i]) == a[i] { assert (a + b)[i] == a[i]; }
    forall i | 0 <= i < |b| ensures View(s, ts[|a|..][i]) == b[i] { assert (a + b)[|a| + i] == b[i]; }
  }

  lemma BeginsLen(s: string, ts: seq<Tok>, vs: seq<T>)
    requires Begins(s, ts, vs)
    ensures |vs| <= |ts|
  {
  }

  /** A symbol at the front */
  lemma BeginsSym(s: string, ts: seq<Tok>, k: char, b: seq<T>)
    requires Begins(s, ts, [S(k)] + b)
    ensures ts != [] && ts[0].kind == k && Begins(s, ts[1..], b) && ts[1..][|b|..] == ts[|b| + 1..]
  {
    BeginsSplit(s, ts, [S(k)], b);
    assert View(s, ts[0]) == [S(k)][0];
  }

  /** A word at the front */
  lemma BeginsWord(s: string, ts: seq<Tok>, w: string, b: seq<T>)
    requires Begins(s, ts, [W(w)] + b)
    ensures ts != [] && ts[0].kind == 'a' && ts[0].lo <= ts[0].hi <= |s| && s[ts[0].lo..ts[0].hi] == w
            && Begins(s, ts[1..], b) && ts[1..][|b|..] == ts[|b| + 1..]
  {
    BeginsSplit(s, ts, [W(w)], b);
    assert View(s, ts[0]) == [W(w)][0];
  }

  /** A node that stands for tree t. */
  ghost predicate Means(s: string, n: Node, t: Tree) {
    NodeIn(s, n) && Text(s, n) == t
  }

  ghost predicate Next(ts: seq<Tok>, kinds: string) {
    ts == [] || ts[0].kind in kinds
  }

  // ----- redirections -----

  datatype Ask = Ask(mode: Mode, file: string)

  function AskTokens(asks: seq<Ask>): (ts: seq<T>)
    ensures |ts| == 2 * |asks|
  {
    if asks == [] then [] else [Sym(asks[0].mode), W(asks[0].file)] + AskTokens(asks[1..])
  }

  function AskWrap(t: Tree, asks: seq<Ask>): Tree
    decreases |asks|
  {
    if asks == [] then t else AskWrap(TRedir(t, asks[0].mode, asks[0].file), asks[1..])
  }

  ghost predicate Asked(s: string, rs: seq<Redirection>, asks: seq<Ask>) {
    && |rs| == |asks|
    && forall i :: 0 <= i < |rs| ==>
        rs[i].file.lo <= rs[i].file.hi <= |s| && rs[i].mode == asks[i].mode && s[rs[i].file.lo..rs[i].file.hi]
        == asks[i].file
  }

  lemma {:induction false} WrapMeans(s: string, n: Node, t: Tree, rs: seq<Redirection>, asks: seq<Ask>)
    requires Means(s, n, t) && Asked(s, rs, asks)
    ensures Means(s, Wrap(n, rs), AskWrap(t, asks))
    decreases |rs|
  {
    if rs != [] {
      assert rs[0].mode == asks[0].mode;
      assert Asked(s, rs[1..], asks[1..]);
      WrapMeans(s, Redir(n, rs[0]), TRedir(t, asks[0].mode, asks[0].file), rs[1..], asks[1..]);
    }
  }

  lemma AskedCons(s: string, r: Redirection, a: Ask, rs: seq<Redirection>, asks: seq<Ask>)
    requires Asked(s, rs, asks) && r.file.lo <= r.file.hi <= |s| && r.mode == a.mode && s[r.file.lo..r.file.hi]
             == a.file
    ensures Asked(s, [r] + rs, [a] + asks)
  {
  }

  lemma RedirsStep(ts: seq<Tok>, rs: seq<Redirection>, rest: seq<Tok>)
    requires |ts| >= 2 && IsRedir(ts[0].kind) && ts[1].kind == 'a' && Redirs(ts[2..]) == Some(rs, rest)
    ensures Redirs(ts) == Some([R(ModeOf(ts[0].kind), Span(ts[1].lo, ts[1].hi))] + rs, rest)
  {
  }

  lemma RedirsNone(ts: seq<Tok>)
    requires Next(ts, "|&;)a")
    ensures Redirs(ts) == Some([], ts)
  {
  }

  /** One printed redirection */
  lemma BeginsAsk(s: string, ts: seq<Tok>, a: Ask, vs: seq<T>)
    requires Begins(s, ts, [Sym(a.mode), W(a.file)] + vs)
    ensures |ts| >= 2 && IsRedir(ts[0].kind) && ModeOf(ts[0].kind) == a.mode && ts[1].kind == 'a'
    ensures ts[1].lo <= ts[1].hi <= |s| && s[ts[1].lo..ts[1].hi] == a.file && Begins(s, ts[2..], vs)
            && ts[2..][|vs|..] == ts[|vs| + 2..]
  {
    var all := [Sym(a.mode), W(a.file)] + vs;
    assert View(s, ts[0]) == all[0] && View(s, ts[1]) == all[1];
    BeginsSplit(s, ts, [Sym(a.mode), W(a.file)], vs);
  }

  lemma {:induction false} RedirsPrinted(s: string, ts: seq<Tok>, asks: seq<Ask>) returns (rs: seq<Redirection>)
    requires Begins(s, ts, AskTokens(asks)) && Next(ts[|AskTokens(asks)|..], "|&;)a")
    ensures Redirs(ts) == Some(rs, ts[|AskTokens(asks)|..]) && Asked(s, rs, asks)
    decreases |asks|
  {
    hide Redirs, Begins, Next, IsRedir, ModeOf;
    if asks == [] {
      rs := [];
      assert ts[0..] == ts;
      RedirsNone(ts);
    } else {
      var a, vs := asks[0], AskTokens(asks[1..]);
      BeginsAsk(s, ts, a, vs);
      var more := RedirsPrinted(s, ts[2..], asks[1..]);
      RedirsStep(ts, more, ts[2..][|vs|..]);
      var first := R(ModeOf(ts[0].kind), Span(ts[1].lo, ts[1].hi));
      rs := [first] + more;
      AskedCons(s, first, a, more, asks[1..]);
      assert asks == [a] + asks[1..];
    }
  }

  // ----- simple commands -----

  ghost predicate Spelled(s: string, args: seq<Span>, ws: seq<string>) {
    |args| == |ws| && forall i :: 0 <= i < |args| ==>
        args[i].lo <= args[i].hi <= |s| && s[args[i].lo..args[i].hi] == ws[i]
  }

  lemma ExecMeans(s: string, args: seq<Span>, ws: seq<string>)
    requires Spelled(s, args, ws)
    ensures Means(s, Exec(args), TExec(ws))
  {
    assert Text(s, Exec(args)).words == ws;
  }

  lemma SpelledSnoc(s: string, args: seq<Span>, ws: seq<string>, a: Span, w: string)
    requires Spelled(s, args, ws) && a.lo <= a.hi <= |s| && s[a.lo..a.hi] == w
    ensures Spelled(s, args + [a], ws + [w])
  {
  }

  lemma ArgsStep(args: seq<Span>, rs: seq<Redirection>, ts: seq<Tok>, more: seq<Redirection>, rest: seq<Tok>)
    requires ts != [] && ts[0].kind == 'a' && |args| + 1 < MAXARGS && Redirs(ts[1..]) == Some(more, rest)
    ensures Args(args, rs, ts) == Args(args + [Span(ts[0].lo, ts[0].hi)], rs + more, rest)
  {
    hide Redirs;
  }

  lemma ArgsDone(args: seq<Span>, rs: seq<Redirection>, ts: seq<Tok>)
    requires Next(ts, "|&;)")
    ensures Args(args, rs, ts) == Ok(Wrap(Exec(args), rs), ts)
  {
  }

  /** Words still to come, then redirections: `done` words have been read. */
  lemma {:induction false} ArgsPrinted(s: string, ts: seq<Tok>, args: seq<Span>, done: seq<string>, ws: seq<string>,
                                       asks: seq<Ask>)
    returns (n: Node)
    requires ws != [] && |done| + |ws| < MAXARGS && Spelled(s, args, done)
    requires Begins(s, ts, Words(ws) + AskTokens(asks)) && Next(ts[|Words(ws) + AskTokens(asks)|..], "|&;)")
    ensures Args(args, [], ts) == Ok(n, ts[|Words(ws) + AskTokens(asks)|..])
            && Means(s, n, AskWrap(TExec(done + ws), asks))
    decreases |ws|
  {
    hide Redirs, Begins, Next, Spelled, Args;
    var vs := Words(ws[1..]) + AskTokens(asks);
    assert Words(ws) + AskTokens(asks) == [W(ws[0])] + vs;
    BeginsWord(s, ts, ws[0], vs);
    var a := Span(ts[0].lo, ts[0].hi);
    SpelledLen(s, args, done);
    SpelledSnoc(s, args, done, a, ws[0]);
    if |ws| == 1 {
      assert vs == AskTokens(asks);
      NextWider(ts[1..][|vs|..]);
      var rs := RedirsPrinted(s, ts[1..], asks);
      ArgsStep(args, [], ts, rs, ts[1..][|vs|..]);
      assert [] + rs == rs && done + ws == done + [ws[0]];
      ArgsDone(args + [a], rs, ts[1..][|vs|..]);
      n := Wrap(Exec(args + [a]), rs);
      ExecMeans(s, args + [a], done + [ws[0]]);
      WrapMeans(s, Exec(args + [a]), TExec(done + [ws[0]]), rs, asks);
    } else {
      assert vs == [W(ws[1])] + (Words(ws[1..][1..]) + AskTokens(asks));
      BeginsWord(s, ts[1..], ws[1], Words(ws[1..][1..]) + AskTokens(asks));
      WordNext(ts[1..]);
      RedirsNone(ts[1..]);
      ArgsStep(args, [], ts, [], ts[1..]);
      var none: seq<Redirection> := [];
      assert none + none == none && done + ws == (done + [ws[0]]) + ws[1..];
      n := ArgsPrinted(s, ts[1..], args + [a], done + [ws[0]], ws[1..], asks);
    }
  }

  lemma SpelledLen(s: string, args: seq<Span>, ws: seq<string>)
    requires Spelled(s, args, ws)
    ensures |args| == |ws|
  {
  }

  lemma NextWider(ts: seq<Tok>)
    requires Next(ts, "|&;)")
    ensures Next(ts, "|&;)a") && (ts != [] ==> ts[0].kind != '(')
  {
  }

  lemma WordNext(ts: seq<Tok>)
    requires ts != [] && ts[0].kind == 'a'
    ensures Next(ts, "|&;)a")
  {
  }

  // ----- a command with its redirections -----

  function BaseOf(t: Tree): (b: Tree)
    ensures !b.TRedir?
  {
    if t.TRedir? then BaseOf(t.cmd) else t
  }

  function AsksOf(t: Tree): seq<Ask> {
    if t.TRedir? then AsksOf(t.cmd) + [Ask(t.mode, t.file)] else []
  }

  lemma {:induction false} WrapSnoc(t: Tree, asks: seq<Ask>, a: Ask)
    ensures AskWrap(t, asks + [a]) == TRedir(AskWrap(t, asks), a.mode, a.file)
    decreases |asks|
  {
    if asks != [] {
      assert (asks + [a])[1..] == asks[1..] + [a];
      WrapSnoc(TRedir(t, asks[0].mode, asks[0].file), asks[1..], a);
    }
  }

  lemma {:induction false} TokensSnoc(asks: seq<Ask>, a: Ask)
    ensures AskTokens(asks + [a]) == AskTokens(asks) + [Sym(a.mode), W(a.file)]
  {
    if asks != [] {
      assert (asks + [a])[1..] == asks[1..] + [a];
      TokensSnoc(asks[1..], a);
    } else {
      assert AskTokens([a]) == [Sym(a.mode), W(a.file)] + AskTokens([a][1..]);
    }
  }

  lemma {:induction false} Chain(t: Tree)
    requires Good(t)
    ensures AskWrap(BaseOf(t), AsksOf(t)) == t && Print(t, 3) == Print(BaseOf(t), 3) + AskTokens(AsksOf(t))
            && Good(BaseOf(t))
    ensures t.TRedir? ==> BaseOf(t) < t
  {
    if t.TRedir? {
      Chain(t.cmd);
      WrapSnoc(BaseOf(t.cmd), AsksOf(t.cmd), Ask(t.mode, t.file));
      TokensSnoc(AsksOf(t.cmd), Ask(t.mode, t.file));
    }
  }

  lemma PlainExec(ts: seq<Tok>, rs: seq<Redirection>, rest: seq<Tok>)
    requires (ts == [] || ts[0].kind != '(') && Redirs(ts) == Some(rs, rest)
    ensures ExecP(ts) == Args([], rs, rest)
  {
    hide Redirs, Args;
  }

  lemma BlockStep(ts: seq<Tok>, n: Node, rest: seq<Tok>, rs: seq<Redirection>, after: seq<Tok>)
    requires ts != [] && ts[0].kind == '(' && Line(ts[1..]) == Ok(n, rest) && rest != [] && rest[0].kind == ')'
             && Redirs(rest[1..]) == Some(rs, after)
    ensures ExecP(ts) == Ok(Wrap(n, rs), after)
  {
    hide Line, Redirs;
  }

  /** Only redirections, or nothing at all */
  lemma EmptyPrinted(s: string, ts: seq<Tok>, asks: seq<Ask>) returns (n: Node)
    requires Begins(s, ts, AskTokens(asks)) && Next(ts[|AskTokens(asks)|..], "|&;)")
    ensures ExecP(ts) == Ok(n, ts[|AskTokens(asks)|..]) && Means(s, n, AskWrap(TExec([]), asks))
  {
    var rest := ts[|AskTokens(asks)|..];
    NextWider(rest);
    var rs := RedirsPrinted(s, ts, asks);
    if asks == [] {
      assert rest == ts;
    } else {
      assert View(s, ts[0]) == AskTokens(asks)[0] == Sym(asks[0].mode);
    }
    PlainExec(ts, rs, rest);
    ArgsDone([], rs, rest);
    ExecMeans(s, [], []);
    WrapMeans(s, Exec([]), TExec([]), rs, asks);
    n := Wrap(Exec([]), rs);
  }

  /** Words, then redirections */
  lemma WordsPrinted(s: string, ts: seq<Tok>, ws: seq<string>, asks: seq<Ask>) returns (n: Node)
    requires |ws| < MAXARGS && Begins(s, ts, Words(ws) + AskTokens(asks))
             && Next(ts[|Words(ws) + AskTokens(asks)|..], "|&;)")
    ensures ExecP(ts) == Ok(n, ts[|Words(ws) + AskTokens(asks)|..]) && Means(s, n, AskWrap(TExec(ws), asks))
  {
    hide ExecP, Args, Means;
    if ws == [] {
      assert Words(ws) + AskTokens(asks) == AskTokens(asks);
      n := EmptyPrinted(s, ts, asks);
    } else {
      assert Words(ws) + AskTokens(asks) == [W(ws[0])] + (Words(ws[1..]) + AskTokens(asks));
      BeginsWord(s, ts, ws[0], Words(ws[1..]) + AskTokens(asks));
      WordNext(ts);
      RedirsNone(ts);
      PlainExec(ts, [], ts);
      n := ArgsPrinted(s, ts, [], [], ws, asks);
      assert [] + ws == ws;
    }
  }

  // ----- the grammar, level by level -----

  /** Larger for parsers that still have to climb to the tree's own level. */
  function Rank(t: Tree, level: nat): nat
    requires level <= 3
  {
    if level <= Level(t) then Level(t) - level else 4 - level + Level(t)
  }

  lemma {:induction false} ExecPrinted(s: string, ts: seq<Tok>, t: Tree) returns (n: Node)
    requires Good(t) && Begins(s, ts, Print(t, 3)) && Next(ts[|Print(t, 3)|..], "|&;)")
    ensures ExecP(ts) == Ok(n, ts[|Print(t, 3)|..]) && Means(s, n, t)
    decreases t, Rank(t, 3)
  {
    hide ExecP, Line, Redirs, Begins, Next, Means, Good, Words, AskTokens;
    Chain(t);
    var b, asks := BaseOf(t), AsksOf(t);
    if b.TExec? {
      GoodExec(b);
      n := WordsPrinted(s, ts, b.words, asks);
    } else {
      var inner, tail := Print(b, 0), [S(')')] + AskTokens(asks);
      Parenthesised(b, asks);
      BeginsSym(s, ts, '(', inner + tail);
      BeginsSplit(s, ts[1..], inner, tail);
      var rest := ts[1..][|inner|..];
      BeginsSym(s, rest, ')', AskTokens(asks));
      CloseNext(rest);
      var m := LinePrinted(s, ts[1..], b);
      NextWider(rest[1..][|AskTokens(asks)|..]);
      var rs := RedirsPrinted(s, rest[1..], asks);
      BlockStep(ts, m, rest, rs, rest[1..][|AskTokens(asks)|..]);
      WrapMeans(s, m, b, rs, asks);
      n := Wrap(m, rs);
    }
  }

  lemma GoodExec(t: Tree)
    requires Good(t) && t.TExec?
    ensures |t.words| < MAXARGS && Print(t, 3) == Words(t.words)
  {
  }

  lemma Parenthesised(b: Tree, asks: seq<Ask>)
    requires !b.TRedir? && !b.TExec?
    ensures Print(b, 3) + AskTokens(asks) == [S('(')] + (Print(b, 0) + ([S(')')] + AskTokens(asks)))
    ensures Rank(b, 3) == Rank(b, 0) + 1
  {
  }

  lemma CloseNext(ts: seq<Tok>)
    requires ts != [] && ts[0].kind == ')'
    ensures Next(ts, ")")
  {
  }

  lemma PipeStep(ts: seq<Tok>, l: Node, rest: seq<Tok>, r: Node, after: seq<Tok>)
    requires ExecP(ts) == Ok(l, rest) && rest != [] && rest[0].kind == '|' && PipeP(rest[1..]) == Ok(r, after)
    ensures PipeP(ts) == Ok(Pipe(l, r), after)
  {
    hide ExecP;
  }

  lemma PipeAlone(ts: seq<Tok>, l: Node, rest: seq<Tok>)
    requires ExecP(ts) == Ok(l, rest) && Next(rest, "&;)")
    ensures PipeP(ts) == Ok(l, rest) && Next(rest, "|&;)")
  {
    hide ExecP;
  }

  lemma Wider(ts: seq<Tok>)
    ensures Next(ts, ")") ==> Next(ts, "&;)")
    ensures Next(ts, "&;)") ==> Next(ts, "|&;)")
    ensures ts != [] && ts[0].kind == '|' ==> Next(ts, "|&;)")
    ensures ts != [] && ts[0].kind == '&' ==> Next(ts, "&;)")
    ensures ts != [] && ts[0].kind == ';' ==> Next(ts, "&;)")
  {
  }

  lemma {:induction false} PipePrinted(s: string, ts: seq<Tok>, t: Tree) returns (n: Node)
    requires Good(t) && Begins(s, ts, Print(t, 2)) && Next(ts[|Print(t, 2)|..], "&;)")
    ensures PipeP(ts) == Ok(n, ts[|Print(t, 2)|..]) && Means(s, n, t)
    decreases t, Rank(t, 2)
  {
    hide ExecP, PipeP, Begins, Next, Print;
    PrintLevels(t);
    if t.TPipe? {
      var a, b := Print(t.left, 3), [S('|')] + Print(t.right, 2);
      BeginsSplit(s, ts, a, b);
      var rest := ts[|a|..];
      BeginsSym(s, rest, '|', Print(t.right, 2));
      Wider(rest);
      var l := ExecPrinted(s, ts, t.left);
      var r := PipePrinted(s, rest[1..], t.right);
      PipeStep(ts, l, rest, r, rest[1..][|Print(t.right, 2)|..]);
      n := Pipe(l, r);
    } else {
      BeginsLen(s, ts, Print(t, 3));
      Wider(ts[|Print(t, 3)|..]);
      n := ExecPrinted(s, ts, t);
      PipeAlone(ts, n, ts[|Print(t, 3)|..]);
    }
  }

  /** How a tree prints at a level that is not its own. */
  lemma PrintLevels(t: Tree)
    ensures if t.TPipe? then Print(t, 2) == Print(t.left, 3) + ([S('|')] + Print(t.right, 2))
            else Print(t, 2) == Print(t, 3) && Rank(t, 3) < Rank(t, 2)
    ensures if t.TBack? then Print(t, 1) == Print(t.cmd, 1) + [S('&')]
            else Print(t, 1) == Print(t, 2) && Rank(t, 2) < Rank(t, 1)
    ensures if t.TList? then Print(t, 0) == Print(t.left, 1) + ([S(';')] + Print(t.right, 0))
            else Print(t, 0) == Print(t, 1) && Rank(t, 1) < Rank(t, 0)
  {
  }

  lemma BackStep(n: Node, ts: seq<Tok>)
    requires ts != [] && ts[0].kind == '&'
    ensures Backs(n, ts) == Backs(Back(n), ts[1..])
  {
  }

  /** After the tokens of t the loop over '&' stands at a node for t. */
  lemma {:induction false} BacksPrinted(s: string, ts: seq<Tok>, t: Tree) returns (n0: Node, r0: seq<Tok>, n: Node)
    requires Good(t) && Begins(s, ts, Print(t, 1)) && Next(ts[|Print(t, 1)|..], "&;)")
    ensures PipeP(ts) == Ok(n0, r0) && Backs(n0, r0) == Backs(n, ts[|Print(t, 1)|..]) && Means(s, n, t)
    decreases t, Rank(t, 1)
  {
    hide PipeP, Begins, Next, Print, Backs;
    PrintLevels(t);
    if t.TBack? {
      var a := Print(t.cmd, 1);
      BeginsSplit(s, ts, a, [S('&')]);
      var rest := ts[|a|..];
      assert [S('&')] == [S('&')] + [];
      BeginsSym(s, rest, '&', []);
      Wider(rest);
      var m;
      n0, r0, m := BacksPrinted(s, ts, t.cmd);
      BackStep(m, rest);
      n := Back(m);
    } else {
      BeginsLen(s, ts, Print(t, 2));
      n := PipePrinted(s, ts, t);
      n0, r0 := n, ts[|Print(t, 2)|..];
    }
  }

  lemma LineStep(ts: seq<Tok>, n0: Node, r0: seq<Tok>, l: Node, rest: seq<Tok>, r: Node, after: seq<Tok>)
    requires PipeP(ts) == Ok(n0, r0) && Backs(n0, r0) == Backs(l, rest) && rest != [] && rest[0].kind == ';'
             && Line(rest[1..]) == Ok(r, after)
    ensures Line(ts) == Ok(List(l, r), after)
  {
    hide PipeP;
    assert Backs(l, rest) == (l, rest);
  }

  lemma LineAlone(ts: seq<Tok>, n0: Node, r0: seq<Tok>, n: Node, rest: seq<Tok>)
    requires PipeP(ts) == Ok(n0, r0) && Backs(n0, r0) == Backs(n, rest) && Next(rest, ")")
    ensures Line(ts) == Ok(n, rest)
  {
    hide PipeP;
    assert Backs(n, rest) == (n, rest);
  }

  lemma {:induction false} LinePrinted(s: string, ts: seq<Tok>, t: Tree) returns (n: Node)
    requires Good(t) && Begins(s, ts, Print(t, 0)) && Next(ts[|Print(t, 0)|..], ")")
    ensures Line(ts) == Ok(n, ts[|Print(t, 0)|..]) && Means(s, n, t)
    decreases t, Rank(t, 0)
  {
    hide PipeP, Line, Begins, Next, Print, Backs;
    PrintLevels(t);
    var n0, r0;
    if t.TList? {
      var a := Print(t.left, 1);
      BeginsSplit(s, ts, a, [S(';')] + Print(t.right, 0));
      var rest := ts[|a|..];
      BeginsSym(s, rest, ';', Print(t.right, 0));
      Wider(rest);
      var l;
      n0, r0, l := BacksPrinted(s, ts, t.left);
      var r := LinePrinted(s, rest[1..], t.right);
      LineStep(ts, n0, r0, l, rest, r, rest[1..][|Print(t.right, 0)|..]);
      n := List(l, r);
    } else {
      BeginsLen(s, ts, Print(t, 0));
      Wider(ts[|Print(t, 0)|..]);
      n0, r0, n := BacksPrinted(s, ts, t);
      LineAlone(ts, n0, r0, n, ts[|Print(t, 0)|..]);
    }
  }

  /** Every command tree with fewer than MAXARGS words per command, printed with parentheses where the
      grammar needs them, parses back to itself. */
  lemma RoundTrip(t: Tree) returns (n: Node)
    requires Good(t)
    ensures Command(Lex(Render(Print(t, 0)), 0)) == Ok(n, []) && Means(Render(Print(t, 0)), n, t)
  {
    hide Lex, Render, Print, Line, Means;
    var s := Render(Print(t, 0));
    assert s[0..] == s;
    PrintGood(t, 0);
    LexRender(s, 0, Print(t, 0));
    var ts := Lex(s, 0);
    ViewsBegin(s, ts, Print(t, 0));
    n := LinePrinted(s, ts, t);
  }

  lemma ViewsBegin(s: string, ts: seq<Tok>, vs: seq<T>)
    requires Within(s, ts) && Views(s, ts) == vs
    ensures Begins(s, ts, vs) && ts[|vs|..] == []
  {
    forall i | 0 <= i < |vs| ensures View(s, ts[i]) == vs[i] { assert Views(s, ts)[i] == View(s, ts[i]); }
  }
}
