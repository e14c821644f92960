/** The grammar of user/sh.c over tokens, as recursive functions. */
module ShellSpec {
  import opened ShellLex

  const MAXARGS: nat := 10

  datatype Mode = Input | Output | Append

  datatype Span = Span(lo: nat, hi: nat)

  datatype Redirection = R(mode: Mode, file: Span)

  /** struct cmd: words are spans of the command line. */
  datatype Node = Exec(args: seq<Span>) | Redir(cmd: Node, r: Redirection) | Pipe(left: Node, right: Node)
      | List(left: Node, right: Node) | Back(cmd: Node)

  datatype Result = Ok(node: Node, rest: seq<Tok>) | Fail

  datatype Redirections = Some(rs: seq<Redirection>, rest: seq<Tok>) | Missing

  predicate IsRedir(k: char) { k == '<' || k == '>' || k == '+' }

  function ModeOf(k: char): Mode { if k == '<' then Input else if k == '>' then Output else Append }

  predicate Stop(k: char) { k == '|' || k == ')' || k == '&' || k == ';' }

  function Redirs(ts: seq<Tok>): (r: Redirections)
    ensures r.Some? ==> |r.rest| <= |ts|
  {
    if ts == [] || !IsRedir(ts[0].kind) then Some([], ts)
    else if |ts| < 2 || ts[1].kind != 'a' then Missing
    else
      match Redirs(ts[2..])
      case Missing => Missing
      case Some(rs, rest) => Some([R(ModeOf(ts[0].kind), Span(ts[1].lo, ts[1].hi))] + rs, rest)
  }

  /** The last redirection is the outermost command. */
  function Wrap(node: Node, rs: seq<Redirection>): Node
    decreases |rs|
  {
    if rs == [] then node else Wrap(Redir(node, rs[0]), rs[1..])
  }

  /** The loop of parseexec(), with the words and redirections so far. */
  function Args(args: seq<Span>, rs: seq<Redirection>, ts: seq<Tok>): (r: Result)
    ensures r.Ok? ==> |r.rest| <= |ts|
    decreases |ts|
  {
    if ts == [] || Stop(ts[0].kind) then Ok(Wrap(Exec(args), rs), ts)
    else if ts[0].kind != 'a' || |args| + 1 >= MAXARGS then Fail
    else
      match Redirs(ts[1..])
      case Missing => Fail
      case Some(more, rest) => Args(args + [Span(ts[0].lo, ts[0].hi)], rs + more, rest)
  }

  function ExecP(ts: seq<Tok>): (r: Result)
    ensures r.Ok? ==> |r.rest| <= |ts|
    decreases |ts|, 1
  {
    if ts != [] && ts[0].kind == '(' then Block(ts)
    else
      match Redirs(ts)
      case Missing => Fail
      case Some(rs, rest) => Args([], rs, rest)
  }

  function Block(ts: seq<Tok>): (r: Result)
    requires ts != [] && ts[0].kind == '('
    ensures r.Ok? ==> |r.rest| <= |ts|
    decreases |ts|, 0
  {
    match Line(ts[1..])
    case Fail => Fail
    case Ok(node, rest) =>
      if rest == [] || rest[0].kind != ')' then Fail
      else
        match Redirs(rest[1..])
        case Missing => Fail
        case Some(rs, after) => Ok(Wrap(node, rs), after)
  }

  function PipeP(ts: seq<Tok>): (r: Result)
    ensures r.Ok? ==> |r.rest| <= |ts|
    decreases |ts|, 2
  {
    match ExecP(ts)
    case Fail => Fail
    case Ok(left, rest) =>
      if rest == [] || rest[0].kind != '|' then Ok(left, rest)
      else
        match PipeP(rest[1..])
        case Fail => Fail
        case Ok(right, after) => Ok(Pipe(left, right), after)
  }

  /** The loop over '&' in parseline() */
  function Backs(node: Node, ts: seq<Tok>): (r: (Node, seq<Tok>))
    ensures |r.1| <= |ts|
    decreases |ts|
  {
    if ts == [] || ts[0].kind != '&' then (node, ts) else Backs(Back(node), ts[1..])
  }

  function Line(ts: seq<Tok>): (r: Result)
    ensures r.Ok? ==> |r.rest| <= |ts|
    decreases |ts|, 3
  {
    match PipeP(ts)
    case Fail => Fail
    case Ok(first, rest) => Rest(ts, first, rest)
  }

  /** parseline() after its pipeline */
  function Rest(ts: seq<Tok>, first: Node, rest: seq<Tok>): (r: Result)
    requires |rest| <= |ts|
    ensures r.Ok? ==> |r.rest| <= |rest|
    decreases |ts|, 2
  {
    var (left, after) := Backs(first, rest);
    if after == [] || after[0].kind != ';' then Ok(left, after)
    else
      match Line(after[1..])
      case Fail => Fail
      case Ok(right, last) => Ok(List(left, right), last)
  }

  /** parsecmd(): the whole line must be used up. */
  function Command(ts: seq<Tok>): Result {
    match Line(ts)
    case Fail => Fail
    case Ok(node, rest) => if rest == [] then Ok(node, []) else Fail
  }

  // ----- trees with the words themselves, and how to print them -----

  datatype Tree = TExec(words: seq<string>) | TRedir(cmd: Tree, mode: Mode, file: string)
      | TPipe(left: Tree, right: Tree) | TList(left: Tree, right: Tree) | TBack(cmd: Tree)

  /** Words are nonempty and plain, and fewer than MAXARGS per command. */
  ghost predicate Good(t: Tree) {
    match t
    case TExec(ws) => |ws| < MAXARGS && forall i :: 0 <= i < |ws| ==> Word(ws[i])
    case TRedir(c, m, f) => Good(c) && Word(f)
    case TPipe(l, r) => Good(l) && Good(r)
    case TList(l, r) => Good(l) && Good(r)
    case TBack(c) => Good(c)
  }

  ghost predicate NodeIn(s: string, n: Node) {
    match n
    case Exec(args) => forall i :: 0 <= i < |args| ==> args[i].lo <= args[i].hi <= |s|
    case Redir(c, r) => NodeIn(s, c) && r.file.lo <= r.file.hi <= |s|
    case Pipe(l, r) => NodeIn(s, l) && NodeIn(s, r)
    case List(l, r) => NodeIn(s, l) && NodeIn(s, r)
    case Back(c) => NodeIn(s, c)
  }

  ghost function Text(s: string, n: Node): Tree
    requires NodeIn(s, n)
  {
    match n
    case Exec(args) => TExec(seq(|args|, i requires 0 <= i < |args| => s[args[i].lo..args[i].hi]))
    case Redir(c, r) => TRedir(Text(s, c), r.mode, s[r.file.lo..r.file.hi])
    case Pipe(l, r) => TPipe(Text(s, l), Text(s, r))
    case List(l, r) => TList(Text(s, l), Text(s, r))
    case Back(c) => TBack(Text(s, c))
  }

  /** How tightly a tree binds: list, background, pipeline, simple command. */
  function Level(t: Tree): nat {
    match t
    case TList(_, _) => 0
    case TBack(_) => 1
    case TPipe(_, _) => 2
    case TRedir(_, _, _) => 3
    case TExec(_) => 3
  }

  function Sym(m: Mode): T { S(match m case Input => '<' case Output => '>' case Append => '+') }

  /** The tokens of a tree where the grammar expects at least `level`, in parentheses if it binds less. */
  function Print(t: Tree, level: nat): seq<T>
    decreases t, 1
  {
    if Level(t) >= level then Body(t) else [S('(')] + Body(t) + [S(')')]
  }

  function Body(t: Tree): seq<T>
    decreases t, 0
  {
    match t
    case TExec(ws) => Words(ws)
    case TRedir(c, m, f) => Print(c, 3) + [Sym(m), W(f)]
    case TPipe(l, r) => Print(l, 3) + [S('|')] + Print(r, 2)
    case TList(l, r) => Print(l, 1) + [S(';')] + Print(r, 0)
    case TBack(c) => Print(c, 1) + [S('&')]
  }

  function Words(ws: seq<string>): (ts: seq<T>)
    ensures |ts| == |ws|
  {
    if ws == [] then [] else [W(ws[0])] + Words(ws[1..])
  }

  lemma {:induction false} PrintGood(t: Tree, level: nat)
    requires Good(t)
    ensures forall i :: 0 <= i < |Print(t, level)| ==> GoodT(Print(t, level)[i])
    decreases t, 1
  {
    BodyGood(t);
  }

  lemma {:induction false} BodyGood(t: Tree)
    requires Good(t)
    ensures forall i :: 0 <= i < |Body(t)| ==> GoodT(Body(t)[i])
    decreases t, 0
  {
    hide Print;
    match t
    case TExec(ws) => WordsGood(ws);
    case TRedir(c, m, f) => PrintGood(c, 3);
    case TPipe(l, r) => PrintGood(l, 3); PrintGood(r, 2);
    case TList(l, r) => PrintGood(l, 1); PrintGood(r, 0);
    case TBack(c) => PrintGood(c, 1);
  }

  lemma {:induction false} WordsGood(ws: seq<string>)
    requires forall i :: 0 <= i < |ws| ==> Word(ws[i])
    ensures forall i :: 0 <= i < |Words(ws)| ==> GoodT(Words(ws)[i])
  {
    if ws != [] { WordsGood(ws[1..]); }
  }
}
