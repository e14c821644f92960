/** user/grep.c.  C strings are sequences of characters without their terminating NUL. */
module Grep {

  // ----- what a pattern means -----

  datatype Item = One(c: char) | Star(c: char) | End

  predicate Accepts(c: char, x: char) { c == '.' || c == x }

  /** A pattern without its leading '^', as items: a starred character, the final '$', or one character. */
  function Items(re: string): seq<Item> {
    if re == "" then []
    else if |re| >= 2 && re[1] == '*' then [Star(re[0])] + Items(re[2..])
    else if re == "$" then [End]
    else [One(re[0])] + Items(re[1..])
  }

  ghost predicate Fits(item: Item, piece: string) {
    match item
    case One(c) => |piece| == 1 && Accepts(c, piece[0])
    case Star(c) => forall i :: 0 <= i < |piece| ==> Accepts(c, piece[i])
    case End => piece == ""
  }

  ghost function Concat(pieces: seq<string>): string {
    if pieces == [] then "" else pieces[0] + Concat(pieces[1..])
  }

  /** The text is cut into one piece per item and a rest; '$' allows no rest. */
  ghost predicate Split(items: seq<Item>, text: string, pieces: seq<string>, rest: string) {
    && |pieces| == |items| && text == Concat(pieces) + rest
    && (forall i :: 0 <= i < |items| ==> Fits(items[i], pieces[i]))
    && (End in items ==> rest == "")
  }

  /** Some beginning of the text matches. */
  ghost predicate Here(items: seq<Item>, text: string) {
    exists pieces, rest :: Split(items, text, pieces, rest)
  }

  ghost predicate Matches(re: string, text: string) {
    if re != "" && re[0] == '^' then Here(Items(re[1..]), text)
    else exists k :: 0 <= k <= |text| && Here(Items(re), text[k..])
  }

  // ----- how Here unfolds -----

  lemma HereNone(text: string)
    ensures Here([], text)
  {
    assert Split([], text, [], text);
  }

  lemma {:induction false} HereOne(c: char, items: seq<Item>, text: string)
    ensures Here([One(c)] + items, text) <==> text != "" && Accepts(c, text[0]) && Here(items, text[1..])
  {
    var all := [One(c)] + items;
    if Here(all, text) {
      var pieces, rest :| Split(all, text, pieces, rest);
      assert Fits(all[0], pieces[0]);
      forall i | 0 <= i < |items| ensures Fits(items[i], pieces[1..][i]) { assert Fits(all[i + 1], pieces[i + 1]); }
      assert text[1..] == Concat(pieces[1..]) + rest;
      assert End in items ==> End in all;
      assert Split(items, text[1..], pieces[1..], rest);
    }
    if text != "" && Accepts(c, text[0]) && Here(items, text[1..]) {
      var pieces, rest :| Split(items, text[1..], pieces, rest);
      assert ([text[..1]] + pieces)[1..] == pieces;
      assert text == Concat([text[..1]] + pieces) + rest;
      assert Split(all, text, [text[..1]] + pieces, rest);
    }
  }

  lemma HereEnd(text: string)
    ensures Here([End], text) <==> text == ""
  {
    if Here([End], text) {
      var pieces, rest :| Split([End], text, pieces, rest);
      assert Fits([End][0], pieces[0]);
      assert pieces == [""];
    }
    if text == "" {
      assert Concat([""]) == "" + Concat([]);
      assert Split([End], text, [""], "");
    }
  }

  /** A starred item takes k characters, for some k. */
  lemma {:induction false} HereStar(c: char, items: seq<Item>, text: string)
    ensures Here([Star(c)] + items, text) <==>
            exists k :: 0 <= k <= |text| && Run(c, text, k) && Here(items, text[k..])
  {
    var all := [Star(c)] + items;
    if Here(all, text) {
      var pieces, rest :| Split(all, text, pieces, rest);
      var k := |pieces[0]|;
      assert Fits(all[0], pieces[0]);
      assert text[..k] == pieces[0];
      forall i | 0 <= i < |items| ensures Fits(items[i], pieces[1..][i]) { assert Fits(all[i + 1], pieces[i + 1]); }
      assert text[k..] == Concat(pieces[1..]) + rest;
      assert End in items ==> End in all;
      assert Split(items, text[k..], pieces[1..], rest);
      forall i | 0 <= i < k ensures Accepts(c, text[i]) { assert text[i] == pieces[0][i]; }
      assert Run(c, text, k);
    }
    if k :| 0 <= k <= |text| && Run(c, text, k) && Here(items, text[k..]) {
      var pieces, rest :| Split(items, text[k..], pieces, rest);
      assert ([text[..k]] + pieces)[1..] == pieces;
      assert text == Concat([text[..k]] + pieces) + rest;
      assert Split(all, text, [text[..k]] + pieces, rest);
    }
  }

  ghost predicate Run(c: char, text: string, k: nat) {
    k <= |text| && forall i :: 0 <= i < k ==> Accepts(c, text[i])
  }

  // ----- the matcher -----

  method Match(re: string, text: string) returns (r: bool)
    ensures r <==> Matches(re, text)
  {
    hide Here, Items;
    if re != "" && re[0] == '^' {
      r := Matchhere(re[1..], text);
      return;
    }
    var t := 0;
    while true
      invariant 0 <= t <= |text| && forall k :: 0 <= k < t ==> !Here(Items(re), text[k..])
      decreases |text| - t
    {
      r := Matchhere(re, text[t..]);
      if r {
        return true;
      }
      if t == |text| {
        return false;
      }
      t := t + 1;
    }
  }

  /** matchhere(): does the pattern match a beginning of the text? */
  method Matchhere(re: string, text: string) returns (r: bool)
    ensures r <==> Here(Items(re), text)
    decreases |re|, 0
  {
    hide Here;
    if re == "" {
      HereNone(text);
      return true;
    }
    if |re| >= 2 && re[1] == '*' {
      r := Matchstar(re[0], re[2..], text);
      return;
    }
    if re == "$" {
      HereEnd(text);
      return text == "";
    }
    HereOne(re[0], Items(re[1..]), text);
    if text != "" && (re[0] == '.' || re[0] == text[0]) {
      r := Matchhere(re[1..], text[1..]);
      return;
    }
    return false;
  }

  /** matchstar(): does c*re match a beginning of the text? */
  method Matchstar(c: char, re: string, text: string) returns (r: bool)
    ensures r <==> Here([Star(c)] + Items(re), text)
    decreases |re|, 1
  {
    hide Here, Items;
    HereStar(c, Items(re), text);
    var t := 0;
    while true
      invariant 0 <= t <= |text| && Run(c, text, t) && forall k :: 0 <= k < t ==> !Here(Items(re), text[k..])
      decreases |text| - t
    {
      r := Matchhere(re, text[t..]);
      if r {
        return true;
      }
      if t == |text| || !(text[t] == c || c == '.') {
        return false;
      }
      t := t + 1;
    }
  }

  // ----- line by line -----

  const NL: char := '\n'
  const NUL: char := '\0'
  const BUFSIZE: nat := 1024

  /** The position of the first newline, |s| if there is none. */
  function Break(s: string): (i: nat)
    ensures i <= |s|
  {
    if s == "" || s[0] == NL then 0 else 1 + Break(s[1..])
  }

  lemma {:induction false} BreakAt(s: string)
    ensures var i := Break(s); (i < |s| ==> s[i] == NL) && forall k :: 0 <= k < i ==> s[k] != NL
  {
    if s != "" && s[0] != NL {
      BreakAt(s[1..]);
      var i := Break(s[1..]);
      forall k | 0 <= k < i + 1 ensures s[k] != NL {
        if k > 0 { assert s[k] == s[1..][k - 1]; }
      }
    }
  }

  /** What the line ending at position i contributes. */
  ghost function Piece(re: string, s: string, i: nat): string
    requires i < |s|
  {
    if Matches(re, s[..i]) then s[..i + 1] else ""
  }

  /** The matching newline-terminated lines, in order. */
  ghost function Selected(re: string, s: string): string
    decreases |s|
  {
    var i := Break(s);
    if i == |s| then "" else Piece(re, s, i) + Selected(re, s[i + 1..])
  }

  /** What follows the last newline. */
  ghost function Tail(s: string): (t: string)
    ensures |t| <= |s|
    decreases |s|
  {
    var i := Break(s);
    if i == |s| then s else Tail(s[i + 1..])
  }

  /** Every newline-terminated line fits the buffer together with its newline. */
  ghost predicate Fit(s: string)
    decreases |s|
  {
    var i := Break(s);
    i == |s| || (i + 1 < BUFSIZE && Fit(s[i + 1..]))
  }

  /** The matching lines up to the first that does not fit, which ends the output. */
  ghost function Shown(re: string, s: string): string
    decreases |s|
  {
    var i := Break(s);
    if i == |s| || i + 1 >= BUFSIZE then "" else Piece(re, s, i) + Shown(re, s[i + 1..])
  }

  lemma BreakAppend(a: string, b: string)
    ensures Break(a) < |a| ==> Break(a + b) == Break(a)
    ensures Break(a) == |a| ==> Break(a + b) == |a| + Break(b)
  {
    if a == "" {
      assert a + b == b;
    } else if a[0] != NL {
      assert (a + b)[1..] == a[1..] + b;
      BreakAppend(a[1..], b);
    }
  }

  /** Reading on: only the unfinished tail matters. */
  lemma {:induction false} SelectedAppend(re: string, a: string, b: string)
    ensures Selected(re, a + b) == Selected(re, a) + Selected(re, Tail(a) + b)
    ensures Tail(a + b) == Tail(Tail(a) + b)
    ensures Fit(a + b) <==> Fit(a) && Fit(Tail(a) + b)
    ensures Fit(a) ==> Shown(re, a + b) == Selected(re, a) + Shown(re, Tail(a) + b)
    decreases |a|
  {
    hide Matches, Selected, Tail, Fit, Shown, Piece;
    BreakAppend(a, b);
    var i := Break(a);
    if i < |a| {
      assert (a + b)[..i] == a[..i] && (a + b)[..i + 1] == a[..i + 1] && (a + b)[i + 1..] == a[i + 1..] + b;
      SelectedLine(re, a);
      SelectedLine(re, a + b);
      SelectedAppend(re, a[i + 1..], b);
      PieceAppend(re, a, b, i);
      Assoc(Piece(re, a, i), Selected(re, a[i + 1..]), Selected(re, Tail(a) + b));
      Assoc(Piece(re, a, i), Selected(re, a[i + 1..]), Shown(re, Tail(a) + b));
    } else {
      SelectedNone(re, a);
    }
  }

  lemma PieceAppend(re: string, a: string, b: string, i: nat)
    requires i < |a|
    ensures Piece(re, a + b, i) == Piece(re, a, i)
  {
    assert (a + b)[..i] == a[..i] && (a + b)[..i + 1] == a[..i + 1];
  }

  lemma SelectedNone(re: string, s: string)
    requires Break(s) == |s|
    ensures Selected(re, s) == "" && Tail(s) == s && Fit(s) && Shown(re, s) == ""
  {
  }

  /** What one read() returns: as much as fits and as remains, or less if the k-th read is short. */
  function Chunk(want: nat, left: nat, sizes: seq<nat>, k: nat): (n: nat)
    ensures n <= want && n <= left && (want > 0 && left > 0 ==> n > 0)
  {
    var most := if want < left then want else left;
    if k < |sizes| && 0 < sizes[k] < most then sizes[k] else most
  }

  /** strchr(p, '\n') on the buffer, whose text ends with a NUL at m */
  method Strchr(buf: array<char>, p: nat, m: nat) returns (q: nat)
    requires p <= m < buf.Length && buf[m] == NUL && NUL !in buf[p..m]
    ensures q == p + Break(buf[p..m])
  {
    q := p;
    while buf[q] != NL && buf[q] != NUL
      invariant p <= q <= m && forall k :: p <= k < q ==> buf[k] != NL
      decreases m - q
    {
      q := q + 1;
    }
    BreakIs(buf[p..m], q - p);
  }

  lemma BreakIs(s: string, i: nat)
    requires i <= |s| && (i < |s| ==> s[i] == NL) && forall k :: 0 <= k < i ==> s[k] != NL
    ensures Break(s) == i
  {
    BreakAt(s);
  }

  lemma {:induction false} SelectedLine(re: string, s: string)
    requires Break(s) < |s|
    ensures var i := Break(s);
            && Selected(re, s) == Piece(re, s, i) + Selected(re, s[i + 1..])
            && Tail(s) == Tail(s[i + 1..]) && (Fit(s) <==> i + 1 < BUFSIZE && Fit(s[i + 1..]))
    ensures var i := Break(s); Shown(re, s) == if i + 1 >= BUFSIZE then "" else Piece(re, s, i) + Shown(re, s[i + 1..])
  {
    hide Piece;
  }

  /** The C string at position p: up to the first NUL. */
  method Cstring(buf: array<char>, p: nat) returns (s: string)
    requires exists i :: p <= i < buf.Length && buf[i] == NUL
    ensures p + |s| < buf.Length && s == buf[p..p + |s|] && buf[p + |s|] == NUL && NUL !in s
  {
    s := "";
    while buf[p + |s|] != NUL
      invariant p + |s| < buf.Length && s == buf[p..p + |s|] && NUL !in s
      invariant exists i :: p + |s| <= i < buf.Length && buf[i] == NUL
      decreases buf.Length - |s|
    {
      s := s + [buf[p + |s|]];
    }
  }

  /** One line of the inner loop: buf[p..q], with its newline at q, of the text `left` in buf[p..m]. */
  method Line(re: string, buf: array<char>, p: nat, q: nat, ghost m: nat, ghost left: string) returns (out: string)
    requires p <= q < m < buf.Length && buf[q] == NL && buf[p..m] == left && NUL !in left
    modifies buf
    ensures out == Piece(re, left, q - p)
    ensures buf[q + 1..m] == left[q - p + 1..] && buf[m] == old(buf[m])
  {
    hide Matches;
    assert buf[p..q] == left[..q - p] && buf[p..q + 1] == left[..q - p + 1] && buf[q + 1..m] == left[q - p + 1..];
    buf[q] := NUL;
    assert buf[p..q] == old(buf[p..q]) && buf[q + 1..m] == old(buf[q + 1..m]);
    assert forall i :: p <= i < q ==> buf[i] == left[i - p];
    var line := Cstring(buf, p);
    assert |line| == q - p;
    var found := Match(re, line);
    out := "";
    if found {
      buf[q] := NL;
      assert buf[p..q + 1] == old(buf[p..q + 1]) && buf[q + 1..m] == old(buf[q + 1..m]);
      out := buf[p..q + 1];
    }
  }

  /** The inner loop of grep(): all complete lines in buf[..m], and where the unfinished one starts. */
  method Lines(re: string, buf: array<char>, m: nat) returns (p: nat, out: string)
    requires m < buf.Length && buf[m] == NUL && NUL !in buf[..m]
    modifies buf
    ensures p <= m && out == Selected(re, old(buf[..m])) && buf[p..m] == Tail(old(buf[..m]))
  {
    hide Matches, Selected, Tail, Break, Progress, Piece;
    p, out := 0, "";
    ghost var s, left := buf[..m], buf[..m];
    ProgressStart(re, s);
    assert buf[0..m] == left;
    var q := Strchr(buf, p, m);
    while q < m
      invariant p <= q <= m && buf[p..m] == left && NUL !in left && buf[m] == NUL && q == p + Break(left)
                && Progress(re, s, out, left)
      decreases m - p
    {
      ProgressLine(re, s, out, left);
      BreakAt(left);
      assert buf[q] == left[q - p];
      var line := Line(re, buf, p, q, m, left);
      left := left[q - p + 1..];
      out := out + line;
      p := q + 1;
      q := Strchr(buf, p, m);
    }
    ProgressEnd(re, s, out, left);
  }

  /** Output so far, and what the rest of the text will still yield. */
  ghost predicate Progress(re: string, s: string, out: string, left: string) {
    out + Selected(re, left) == Selected(re, s) && Tail(left) == Tail(s)
  }

  lemma ProgressStart(re: string, s: string)
    ensures Progress(re, s, "", s)
  {
    hide Selected, Tail;
  }

  lemma {:induction false} ProgressLine(re: string, s: string, out: string, left: string)
    requires Progress(re, s, out, left) && Break(left) < |left|
    ensures Progress(re, s, out + Piece(re, left, Break(left)), left[Break(left) + 1..])
  {
    hide Selected, Tail, Break, Piece;
    SelectedLine(re, left);
    Assoc(out, Piece(re, left, Break(left)), Selected(re, left[Break(left) + 1..]));
  }

  lemma Assoc(a: string, b: string, c: string)
    ensures (a + b) + c == a + (b + c)
  {
  }

  lemma ProgressEnd(re: string, s: string, out: string, left: string)
    requires Progress(re, s, out, left) && Break(left) == |left|
    ensures out == Selected(re, s) && left == Tail(s)
  {
    hide Selected, Tail;
    SelectedNone(re, left);
  }

  /** read() into buf + m */
  method Fill(buf: array<char>, m: nat, bytes: string)
    requires m + |bytes| < buf.Length
    modifies buf
    ensures buf[..m + |bytes|] == old(buf[..m]) + bytes && buf[m + |bytes|] == NUL
  {
    forall i | 0 <= i < |bytes| { buf[m + i] := bytes[i]; }
    buf[m + |bytes|] := NUL;
    assert buf[..m] == old(buf[..m]);
    assert buf[m..m + |bytes|] == bytes;
  }

  /** memmove(buf, buf + p, n) */
  method Move(buf: array<char>, p: nat, n: nat)
    requires p + n <= buf.Length
    modifies buf
    ensures buf[..n] == old(buf[p..p + n])
  {
    forall i | 0 <= i < n { buf[i] := buf[p + i]; }
  }

  /** One round of the outer loop: n bytes arrive behind the m unfinished ones, the lines are dealt
      with, and the new unfinished one moves to the front. */
  method Round(re: string, buf: array<char>, input: string, pos: nat, m: nat, n: nat) returns (p: nat, out: string)
    requires buf.Length == BUFSIZE && m + n < BUFSIZE && pos + n <= |input| && NUL !in input
             && buf[..m] == Tail(input[..pos])
    modifies buf
    ensures p <= m + n && out == Selected(re, Tail(input[..pos]) + input[pos..pos + n])
    ensures buf[..m + n - p] == Tail(input[..pos + n])
  {
    hide Matches, Selected, Tail;
    TailFrom(input[..pos]);
    Fill(buf, m, input[pos..pos + n]);
    p, out := Lines(re, buf, m + n);
    Move(buf, p, m + n - p);
    SelectedAppend(re, input[..pos], input[pos..pos + n]);
    assert input[..pos] + input[pos..pos + n] == input[..pos + n];
  }

  lemma {:induction false} TailFrom(s: string)
    ensures (forall c :: c in Tail(s) ==> c in s) && NL !in Tail(s)
    decreases |s|
  {
    var i := Break(s);
    BreakAt(s);
    if i < |s| { TailFrom(s[i + 1..]); }
  }

  lemma {:induction false} ShortFits(s: string)
    requires |s| < BUFSIZE
    ensures Fit(s)
    decreases |s|
  {
    var i := Break(s);
    if i < |s| { ShortFits(s[i + 1..]); }
  }

  /** If every terminated line fits, all matching ones are shown. */
  lemma {:induction false} ShownAll(re: string, s: string)
    requires Fit(s)
    ensures Shown(re, s) == Selected(re, s)
    decreases |s|
  {
    hide Piece;
    var i := Break(s);
    if i < |s| { ShownAll(re, s[i + 1..]); }
  }

  /** From the first line on that does not fit; empty if all fit. */
  ghost function Unread(s: string): string
    decreases |s|
  {
    var i := Break(s);
    if i == |s| then "" else if i + 1 >= BUFSIZE then s else Unread(s[i + 1..])
  }

  /** No newline-terminated line matches. */
  ghost predicate NoMatch(re: string, s: string)
    decreases |s|
  {
    var i := Break(s);
    i == |s| || (!Matches(re, s[..i]) && NoMatch(re, s[i + 1..]))
  }

  lemma {:induction false} SelectedEmpty(re: string, s: string)
    ensures Selected(re, s) == "" <==> NoMatch(re, s)
    decreases |s|
  {
    hide Matches;
    var i := Break(s);
    if i < |s| { SelectedEmpty(re, s[i + 1..]); }
  }

  lemma {:induction false} SelectedSplit(re: string, s: string)
    ensures Selected(re, s) == Shown(re, s) + Selected(re, Unread(s))
    decreases |s|
  {
    hide Piece;
    var i := Break(s);
    if i < |s| && i + 1 < BUFSIZE {
      SelectedSplit(re, s[i + 1..]);
      Assoc(Piece(re, s, i), Shown(re, s[i + 1..]), Selected(re, Unread(s)));
    }
  }

  /** All matching lines are shown exactly when none matches from the first unfit line on. */
  lemma ShownExactly(re: string, s: string)
    ensures Shown(re, s) == Selected(re, s) <==> NoMatch(re, Unread(s))
  {
    SelectedSplit(re, s);
    SelectedEmpty(re, Unread(s));
  }

  /** A line of 1023 characters, its newline not counted, is lost, and the lines behind it with it. */
  lemma LongLineLost(rest: string)
    ensures var s := seq(BUFSIZE - 1, _ => 'a') + [NL] + rest; Shown("", s) == "" && Selected("", s) != ""
  {
    var line := seq(BUFSIZE - 1, _ => 'a');
    var s := line + [NL] + rest;
    BreakIs(s, BUFSIZE - 1);
    var t := s[..BUFSIZE - 1];
    HereNone(t);
    assert t[0..] == t && Items("") == [];
    assert Matches("", t);
  }

  /** read() returns nothing at the end of the input, or when an unfinished line fills the buffer; either
      way nothing more is shown. */
  lemma Stops(re: string, input: string, pos: nat)
    requires pos <= |input| && Fit(input[..pos]) && (pos == |input| || |Tail(input[..pos])| == BUFSIZE - 1)
    ensures Shown(re, input) == Selected(re, input[..pos])
  {
    hide Piece;
    var t, rest := Tail(input[..pos]), input[pos..];
    assert input[..pos] + rest == input;
    SelectedAppend(re, input[..pos], rest);
    if pos == |input| {
      assert input[..pos] == input;
      ShownAll(re, input);
    } else {
      TailFrom(input[..pos]);
      BreakIs(t, |t|);
      BreakAppend(t, rest);
    }
  }

  /** grep(): for input without NULs, however it is cut into reads, the output is the matching
      newline-terminated lines up to the first that does not fit the buffer. */
  method GrepFile(re: string, input: string, sizes: seq<nat>) returns (out: string)
    requires NUL !in input
    ensures out == Shown(re, input)
    ensures out == Selected(re, input) <==> NoMatch(re, Unread(input))
    ensures Fit(input) ==> out == Selected(re, input)
  {
    hide Matches, Selected, Tail, Fit, Shown, NoMatch, Unread;
    var buf := new char[BUFSIZE](_ => NUL);
    var m: nat, pos: nat, k: nat := 0, 0, 0;
    out := "";
    assert input[..0] == "";
    SelectedNone(re, "");
    if Fit(input) { ShownAll(re, input); }
    ShownExactly(re, input);
    while true
      invariant 0 <= pos <= |input| && m < BUFSIZE && buf[..m] == Tail(input[..pos])
                && out == Selected(re, input[..pos])
      invariant fresh(buf) && Fit(input[..pos])
      decreases |input| - pos
    {
      var n := Chunk(BUFSIZE - m - 1, |input| - pos, sizes, k);
      if n == 0 {
        Stops(re, input, pos);
        return;
      }
      ShortFits(Tail(input[..pos]) + input[pos..pos + n]);
      SelectedAppend(re, input[..pos], input[pos..pos + n]);
      assert input[..pos] + input[pos..pos + n] == input[..pos + n];
      var p, more := Round(re, buf, input, pos, m, n);
      out := out + more;
      m := m + n - p;
      pos, k := pos + n, k + 1;
    }
  }
}
