/** The grammar of user/sh.c as derivations, independent of any parsing order:

      line  ::= pipe '&'*  |  pipe '&'* ';' line
      pipe  ::= exec  |  exec '|' pipe
      exec  ::= redir* (word redir*)*  |  '(' line ')' redir*
      redir ::= ('<' | '>' | '>>') word

    with fewer than MAXARGS words in a command.  The parser accepts exactly the token sequences that
    have a derivation, and returns the tree of that derivation. */
module ShellGrammar {
  import opened ShellLex
  import opened ShellSpec

  datatype Pair = Pair(sym: Tok, file: Tok)

  datatype Part = Part(word: Tok, rs: seq<Pair>)

  datatype Cst =
    | Simple(front: seq<Pair>, parts: seq<Part>)
    | Group(open: Tok, inner: Cst, close: Tok, rs: seq<Pair>)
    | Piped(left: Cst, bar: Tok, right: Cst)
    | Amps(pipe: Cst, amps: seq<Tok>)
    | Seq(left: Cst, semi: Tok, right: Cst)

  // ----- which derivations there are -----

  predicate PairsOk(ps: seq<Pair>) {
    forall i :: 0 <= i < |ps| ==> IsRedir(ps[i].sym.kind) && ps[i].file.kind == 'a'
  }

  predicate PartsOk(ps: seq<Part>) {
    forall i :: 0 <= i < |ps| ==> ps[i].word.kind == 'a' && PairsOk(ps[i].rs)
  }

  predicate IsExec(c: Cst)
    decreases c, 0
  {
    match c
    case Simple(front, parts) => PairsOk(front) && PartsOk(parts) && |parts| < MAXARGS
    case Group(open, inner, close, rs) => open.kind == '(' && IsLine(inner) && close.kind == ')' && PairsOk(rs)
    case _ => false
  }

  predicate IsPipe(c: Cst)
    decreases c, 1
  {
    if c.Piped? then IsExec(c.left) && c.bar.kind == '|' && IsPipe(c.right) else IsExec(c)
  }

  predicate IsBack(c: Cst)
    decreases c, 2
  {
    c.Amps? && IsPipe(c.pipe) && forall i :: 0 <= i < |c.amps| ==> c.amps[i].kind == '&'
  }

  predicate IsLine(c: Cst)
    decreases c, 3
  {
    if c.Seq? then IsBack(c.left) && c.semi.kind == ';' && IsLine(c.right) else IsBack(c)
  }

  // ----- their tokens and their trees -----

  function PairsYield(ps: seq<Pair>): seq<Tok> {
    if ps == [] then [] else [ps[0].sym, ps[0].file] + PairsYield(ps[1..])
  }

  function PartsYield(ps: seq<Part>): seq<Tok> {
    if ps == [] then [] else [ps[0].word] + PairsYield(ps[0].rs) + PartsYield(ps[1..])
  }

  function Yield(c: Cst): seq<Tok> {
    match c
    case Simple(front, parts) => PairsYield(front) + PartsYield(parts)
    case Group(open, inner, close, rs) => [open] + Yield(inner) + [close] + PairsYield(rs)
    case Piped(left, bar, right) => Yield(left) + [bar] + Yield(right)
    case Amps(pipe, amps) => Yield(pipe) + amps
    case Seq(left, semi, right) => Yield(left) + [semi] + Yield(right)
  }

  function Asked(ps: seq<Pair>): (rs: seq<Redirection>)
    ensures |rs| == |ps|
  {
    if ps == [] then []
    else [R(ModeOf(ps[0].sym.kind), Span(ps[0].file.lo, ps[0].file.hi))] + Asked(ps[1..])
  }

  function WordsOf(ps: seq<Part>): (ws: seq<Span>)
    ensures |ws| == |ps|
  {
    if ps == [] then [] else [Span(ps[0].word.lo, ps[0].word.hi)] + WordsOf(ps[1..])
  }

  function AskedAll(ps: seq<Part>): seq<Redirection> {
    if ps == [] then [] else Asked(ps[0].rs) + AskedAll(ps[1..])
  }

  function Backed(node: Node, n: nat): Node {
    if n == 0 then node else Back(Backed(node, n - 1))
  }

  function NodeOf(c: Cst): Node {
    match c
    case Simple(front, parts) => Wrap(Exec(WordsOf(parts)), Asked(front) + AskedAll(parts))
    case Group(_, inner, _, rs) => Wrap(NodeOf(inner), Asked(rs))
    case Piped(left, _, right) => Pipe(NodeOf(left), NodeOf(right))
    case Amps(pipe, amps) => Backed(NodeOf(pipe), |amps|)
    case Seq(left, _, right) => List(NodeOf(left), NodeOf(right))
  }

  // ----- one more of each -----

  lemma PairsCons(p: Pair, more: seq<Pair>)
    requires IsRedir(p.sym.kind) && p.file.kind == 'a' && PairsOk(more)
    ensures PairsOk([p] + more) && PairsYield([p] + more) == [p.sym, p.file] + PairsYield(more)
    ensures Asked([p] + more) == [R(ModeOf(p.sym.kind), Span(p.file.lo, p.file.hi))] + Asked(more)
  {
    assert ([p] + more)[1..] == more;
  }

  lemma PairsNone()
    ensures PairsOk([]) && PairsYield([]) == [] && Asked([]) == []
    ensures PartsOk([]) && PartsYield([]) == [] && WordsOf([]) == [] && AskedAll([]) == []
  {
  }

  lemma PartsCons(p: Part, more: seq<Part>)
    requires p.word.kind == 'a' && PairsOk(p.rs) && PartsOk(more)
    ensures PartsOk([p] + more) && PartsYield([p] + more) == [p.word] + PairsYield(p.rs) + PartsYield(more)
    ensures WordsOf([p] + more) == [Span(p.word.lo, p.word.hi)] + WordsOf(more)
    ensures AskedAll([p] + more) == Asked(p.rs) + AskedAll(more)
  {
    assert ([p] + more)[1..] == more;
  }

  lemma Assoc<T>(a: seq<T>, b: seq<T>, c: seq<T>)
    ensures a + b + c == a + (b + c)
  {
  }

  lemma ThreeParts<T>(a: seq<T>, b: seq<T>, c: seq<T>, d: seq<T>)
    ensures a + b + c + d == a + (b + (c + d)) == a + (b + c + d)
  {
  }

  // ----- whatever is parsed has a derivation -----

  lemma {:induction false} RedirsSound(ts: seq<Tok>) returns (ps: seq<Pair>)
    requires Redirs(ts).Some?
    ensures PairsOk(ps) && ts == PairsYield(ps) + Redirs(ts).rest && Redirs(ts).rs == Asked(ps)
    ensures Redirs(ts).rest == [] || !IsRedir(Redirs(ts).rest[0].kind)
    decreases |ts|
  {
    hide PairsYield, Asked, PairsOk, IsRedir;
    if ts != [] && IsRedir(ts[0].kind) {
      var more := RedirsSound(ts[2..]);
      ps := [Pair(ts[0], ts[1])] + more;
      PairsCons(Pair(ts[0], ts[1]), more);
      assert ts == [ts[0], ts[1]] + ts[2..];
      Assoc([ts[0], ts[1]], PairsYield(more), Redirs(ts[2..]).rest);
    } else {
      ps := [];
      PairsNone();
    }
  }

  lemma {:induction false} ArgsSound(args: seq<Span>, rs: seq<Redirection>, ts: seq<Tok>) returns (ps: seq<Part>)
    requires Args(args, rs, ts).Ok?
    ensures PartsOk(ps) && ts == PartsYield(ps) + Args(args, rs, ts).rest
    ensures Args(args, rs, ts).node == Wrap(Exec(args + WordsOf(ps)), rs + AskedAll(ps))
    ensures ps != [] ==> |args| + |ps| < MAXARGS
    decreases |ts|
  {
    hide Redirs, Wrap, PairsYield, PartsYield, PairsOk, PartsOk, Asked, AskedAll, WordsOf;
    if ts == [] || Stop(ts[0].kind) {
      ps := [];
      PairsNone();
      assert args + [] == args && rs + [] == rs;
    } else {
      var first := RedirsSound(ts[1..]);
      var r := Redirs(ts[1..]);
      var a := Span(ts[0].lo, ts[0].hi);
      var more := ArgsSound(args + [a], rs + r.rs, r.rest);
      ps := [Part(ts[0], first)] + more;
      PartsCons(Part(ts[0], first), more);
      assert ts == [ts[0]] + ts[1..];
      ThreeParts([ts[0]], PairsYield(first), PartsYield(more), Args(args, rs, ts).rest);
      Assoc(args, [a], WordsOf(more));
      Assoc(rs, r.rs, AskedAll(more));
    }
  }

  lemma {:induction false} BacksSound(node: Node, ts: seq<Tok>) returns (amps: seq<Tok>)
    ensures ts == amps + Backs(node, ts).1 && Backs(node, ts).0 == Backed(node, |amps|)
    ensures forall i :: 0 <= i < |amps| ==> amps[i].kind == '&'
    ensures Backs(node, ts).1 == [] || Backs(node, ts).1[0].kind != '&'
    decreases |ts|
  {
    amps := [];
    if ts != [] && ts[0].kind == '&' {
      var more := BacksSound(Back(node), ts[1..]);
      amps := [ts[0]] + more;
      BackedInside(node, |more|);
      assert ts == [ts[0]] + ts[1..];
    }
  }

  lemma {:induction false} BackedInside(node: Node, n: nat)
    ensures Backed(Back(node), n) == Backed(node, n + 1)
  {
    if n > 0 { BackedInside(node, n - 1); }
  }

  lemma {:induction false} ExecSound(ts: seq<Tok>) returns (c: Cst)
    requires ExecP(ts).Ok?
    ensures IsExec(c) && ts == Yield(c) + ExecP(ts).rest && ExecP(ts).node == NodeOf(c)
    decreases |ts|, 1
  {
    hide Wrap, Args, Redirs, PairsYield, PartsYield, PairsOk, PartsOk, Asked, AskedAll, WordsOf, IsLine;
    if ts != [] && ts[0].kind == '(' {
      var l := Line(ts[1..]);
      var inner := LineSound(ts[1..]);
      var ps := RedirsSound(l.rest[1..]);
      c := Group(ts[0], inner, l.rest[0], ps);
      assert ts == [ts[0]] + ts[1..] && l.rest == [l.rest[0]] + l.rest[1..];
      ThreeParts([ts[0]] + Yield(inner), [l.rest[0]], PairsYield(ps), Redirs(l.rest[1..]).rest);
      Assoc([ts[0]], Yield(inner), l.rest);
    } else {
      var front := RedirsSound(ts);
      var r := Redirs(ts);
      var parts := ArgsSound([], r.rs, r.rest);
      c := Simple(front, parts);
      assert [] + WordsOf(parts) == WordsOf(parts);
      Assoc(PairsYield(front), PartsYield(parts), ExecP(ts).rest);
    }
  }

  lemma {:induction false} PipeSound(ts: seq<Tok>) returns (c: Cst)
    requires PipeP(ts).Ok?
    ensures IsPipe(c) && ts == Yield(c) + PipeP(ts).rest && PipeP(ts).node == NodeOf(c)
    decreases |ts|, 2
  {
    hide ExecP, IsExec, PairsYield, PartsYield;
    var left := ExecSound(ts);
    var rest := ExecP(ts).rest;
    ExecIsPipe(left);
    if rest == [] || rest[0].kind != '|' {
      c := left;
    } else {
      var right := PipeSound(rest[1..]);
      c := Piped(left, rest[0], right);
      assert rest == [rest[0]] + rest[1..];
      ThreeParts(Yield(left), [rest[0]], Yield(right), PipeP(rest[1..]).rest);
    }
  }

  lemma ExecIsPipe(c: Cst)
    requires IsExec(c)
    ensures IsPipe(c) && !c.Piped?
  {
  }

  lemma {:induction false} LineSound(ts: seq<Tok>) returns (c: Cst)
    requires Line(ts).Ok?
    ensures IsLine(c) && ts == Yield(c) + Line(ts).rest && Line(ts).node == NodeOf(c)
    decreases |ts|, 3
  {
    hide PipeP, Backs, IsPipe;
    var pipe := PipeSound(ts);
    var first, rest := PipeP(ts).node, PipeP(ts).rest;
    var amps := BacksSound(first, rest);
    var left := Amps(pipe, amps);
    var after := Backs(first, rest).1;
    if after == [] || after[0].kind != ';' {
      c := left;
    } else {
      var right := LineSound(after[1..]);
      c := Seq(left, after[0], right);
      assert after == [after[0]] + after[1..];
    }
  }

  // ----- whatever has a derivation is parsed -----

  lemma {:induction false} RedirsComplete(ps: seq<Pair>, rest: seq<Tok>)
    requires PairsOk(ps) && (rest == [] || !IsRedir(rest[0].kind))
    ensures Redirs(PairsYield(ps) + rest) == ShellSpec.Some(Asked(ps), rest)
  {
    var ts := PairsYield(ps) + rest;
    if ps == [] {
      assert ts == rest;
    } else {
      RedirsComplete(ps[1..], rest);
      assert ts[0] == ps[0].sym && ts[1] == ps[0].file && ts[2..] == PairsYield(ps[1..]) + rest;
    }
  }

  predicate Ends(rest: seq<Tok>) { rest == [] || Stop(rest[0].kind) }

  /** After words or at the end there is no redirection. */
  lemma WordFirst(ps: seq<Part>, rest: seq<Tok>)
    requires PartsOk(ps) && Ends(rest)
    ensures PartsYield(ps) + rest == [] || !IsRedir((PartsYield(ps) + rest)[0].kind)
  {
    if ps != [] { assert (PartsYield(ps) + rest)[0] == ps[0].word; }
  }

  lemma {:induction false} ArgsComplete(args: seq<Span>, rs: seq<Redirection>, ps: seq<Part>, rest: seq<Tok>)
    requires PartsOk(ps) && Ends(rest) && |args| + |ps| < MAXARGS
    ensures Args(args, rs, PartsYield(ps) + rest) == Ok(Wrap(Exec(args + WordsOf(ps)), rs + AskedAll(ps)), rest)
    decreases |ps|
  {
    hide Redirs, Wrap, PairsYield, PartsYield, PairsOk, Asked, AskedAll, WordsOf;
    var ts := PartsYield(ps) + rest;
    if ps == [] {
      PairsNone();
      assert ts == rest && args + [] == args && rs + [] == rs;
    } else {
      var p, more := ps[0], ps[1..];
      PartsCons(p, more);
      assert ps == [p] + more;
      var tail := PartsYield(more) + rest;
      var a := Span(p.word.lo, p.word.hi);
      WordFirst(more, rest);
      RedirsComplete(p.rs, tail);
      ThreeParts([p.word], PairsYield(p.rs), PartsYield(more), rest);
      assert ts[0] == p.word && ts[1..] == PairsYield(p.rs) + tail;
      ArgsComplete(args + [a], rs + Asked(p.rs), more, rest);
      Assoc(args, [a], WordsOf(more));
      Assoc(rs, Asked(p.rs), AskedAll(more));
    }
  }

  lemma {:induction false} BacksComplete(node: Node, amps: seq<Tok>, rest: seq<Tok>)
    requires (forall i :: 0 <= i < |amps| ==> amps[i].kind == '&') && (rest == [] || rest[0].kind != '&')
    ensures Backs(node, amps + rest) == (Backed(node, |amps|), rest)
    decreases |amps|
  {
    if amps == [] {
      assert amps + rest == rest;
    } else {
      assert (amps + rest)[1..] == amps[1..] + rest;
      BacksComplete(Back(node), amps[1..], rest);
      BackedInside(node, |amps| - 1);
    }
  }

  lemma {:induction false} ExecComplete(c: Cst, rest: seq<Tok>)
    requires IsExec(c) && Ends(rest)
    ensures ExecP(Yield(c) + rest) == Ok(NodeOf(c), rest)
    decreases c, 0
  {
    hide Wrap, Args, Redirs, PairsYield, PartsYield, PairsOk, PartsOk, Asked, AskedAll, WordsOf, IsLine, Line;
    var ts := Yield(c) + rest;
    match c
    case Simple(front, parts) =>
      var tail := PartsYield(parts) + rest;
      WordFirst(parts, rest);
      RedirsComplete(front, tail);
      Assoc(PairsYield(front), PartsYield(parts), rest);
      FirstIs(front, parts, rest);
      ArgsComplete([], Asked(front), parts, rest);
      assert [] + WordsOf(parts) == WordsOf(parts);
    case Group(open, inner, close, rs) =>
      var tail := [close] + (PairsYield(rs) + rest);
      LineComplete(inner, tail);
      ThreeParts([open] + Yield(inner), [close], PairsYield(rs), rest);
      Assoc([open], Yield(inner), tail);
      assert ts[0] == open && ts[1..] == Yield(inner) + tail;
      assert tail[1..] == PairsYield(rs) + rest;
      RedirsComplete(rs, rest);
  }

  lemma FirstIs(front: seq<Pair>, parts: seq<Part>, rest: seq<Tok>)
    requires PairsOk(front) && PartsOk(parts) && Ends(rest)
    ensures PairsYield(front) + PartsYield(parts) + rest != [] ==>
              (PairsYield(front) + PartsYield(parts) + rest)[0].kind != '('
  {
    var ts := PairsYield(front) + PartsYield(parts) + rest;
    if front != [] {
      assert ts[0] == front[0].sym && IsRedir(front[0].sym.kind);
    } else if parts != [] {
      assert ts[0] == parts[0].word && parts[0].word.kind == 'a';
    } else {
      assert ts == rest;
    }
  }

  lemma {:induction false} PipeComplete(c: Cst, rest: seq<Tok>)
    requires IsPipe(c) && Ends(rest) && (rest == [] || rest[0].kind != '|')
    ensures PipeP(Yield(c) + rest) == Ok(NodeOf(c), rest)
    decreases c, 1
  {
    hide ExecP, IsExec;
    if c.Piped? {
      var tail := [c.bar] + (Yield(c.right) + rest);
      assert Yield(c) + rest == Yield(c.left) + tail;
      assert tail[1..] == Yield(c.right) + rest;
      ExecComplete(c.left, tail);
      PipeComplete(c.right, rest);
    } else {
      ExecComplete(c, rest);
    }
  }

  lemma {:induction false} LineComplete(c: Cst, rest: seq<Tok>)
    requires IsLine(c) && (rest == [] || rest[0].kind == ')')
    ensures Line(Yield(c) + rest) == Ok(NodeOf(c), rest)
    decreases c, 2
  {
    hide PipeP, Backs, IsPipe;
    var left := if c.Seq? then c.left else c;
    var tail := if c.Seq? then [c.semi] + (Yield(c.right) + rest) else rest;
    assert Yield(c) + rest == Yield(left.pipe) + (left.amps + tail);
    assert Ends(left.amps + tail) && (left.amps + tail == [] || (left.amps + tail)[0].kind != '|');
    PipeComplete(left.pipe, left.amps + tail);
    BacksComplete(NodeOf(left.pipe), left.amps, tail);
    if c.Seq? {
      assert tail[1..] == Yield(c.right) + rest;
      LineComplete(c.right, rest);
    }
  }

  // ----- the language of the shell -----

  /** parsecmd() accepts a line exactly when it has a derivation, and makes the tree of it. */
  lemma Language(ts: seq<Tok>, node: Node)
    ensures Command(ts) == Ok(node, []) <==> exists c :: IsLine(c) && Yield(c) == ts && NodeOf(c) == node
  {
    hide Line, Yield, NodeOf, IsLine;
    if Command(ts) == Ok(node, []) {
      var c := LineSound(ts);
      assert Yield(c) + [] == Yield(c);
    }
    if c :| IsLine(c) && Yield(c) == ts && NodeOf(c) == node {
      LineComplete(c, []);
      assert Yield(c) + [] == ts;
    }
  }

  ghost predicate Derivable(ts: seq<Tok>) { exists c :: IsLine(c) && Yield(c) == ts }

  /** In particular it fails exactly on the lines that have none. */
  lemma FailsExactly(ts: seq<Tok>)
    ensures Command(ts) == Fail <==> !Derivable(ts)
  {
    hide Line, Yield, NodeOf, IsLine;
    if Derivable(ts) {
      var c :| IsLine(c) && Yield(c) == ts;
      LineComplete(c, []);
      assert Yield(c) + [] == ts;
    }
    if Command(ts) != Fail {
      var c := LineSound(ts);
      assert Yield(c) + [] == Yield(c);
    }
  }

  /** And no line means two things. */
  lemma Unambiguous(c: Cst, d: Cst)
    requires IsLine(c) && IsLine(d) && Yield(c) == Yield(d)
    ensures NodeOf(c) == NodeOf(d)
  {
    hide Line, Yield, NodeOf, IsLine;
    Language(Yield(c), NodeOf(c));
    Language(Yield(d), NodeOf(d));
  }
}
