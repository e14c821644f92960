/** What a pattern of user/grep.c means, from its characters: printing items gives the pattern they are
    read from, and patterns of ordinary characters search for themselves. */
module GrepPattern {
  import opened Grep

  // ----- items and characters -----

  function Spell(item: Item): (s: string)
    ensures s != ""
  {
    match item
    case One(c) => [c]
    case Star(c) => [c, '*']
    case End => "$"
  }

  function Print(items: seq<Item>): string {
    if items == [] then "" else Spell(items[0]) + Print(items[1..])
  }

  /** Items that a pattern can ask for: '$' is special only at the end, where it is never literal, and
      the '*' of a starred character cannot be an item of its own. */
  ghost predicate Printable(items: seq<Item>) {
    && (forall i :: 0 <= i < |items| && items[i].End? ==> i == |items| - 1)
    && (forall i :: 0 <= i < |items| - 1 && items[i].One? ==> Spell(items[i + 1])[0] != '*')
    && (items != [] ==> items[|items| - 1] != One('$'))
  }

  lemma PrintableCons(item: Item, rest: seq<Item>)
    requires Printable(rest) && !item.End? && (rest == [] ==> item != One('$'))
    requires rest != [] && item.One? ==> Print(rest)[0] != '*'
    ensures Printable([item] + rest) && Print([item] + rest) == Spell(item) + Print(rest)
  {
    var all := [item] + rest;
    assert all[1..] == rest;
    forall i | 0 <= i < |all| - 1 && all[i].One? ensures Spell(all[i + 1])[0] != '*' {
      if i > 0 { assert all[i] == rest[i - 1] && all[i + 1] == rest[i]; }
    }
  }

  /** Every pattern is the print of its items, and these are printable. */
  lemma {:induction false} PrintItems(re: string)
    ensures Print(Items(re)) == re && Printable(Items(re))
  {
    hide Printable;
    PrintableEnd();
    if re == "" {
    } else if |re| >= 2 && re[1] == '*' {
      PrintItems(re[2..]);
      PrintableCons(Star(re[0]), Items(re[2..]));
      assert re == [re[0], '*'] + re[2..];
    } else if re != "$" {
      PrintItems(re[1..]);
      PrintableCons(One(re[0]), Items(re[1..]));
      assert re == [re[0]] + re[1..];
    }
  }

  lemma PrintableEnd()
    ensures Printable([]) && Printable([End]) && Print([End]) == "$"
  {
    assert [End][1..] == [];
  }

  /** Printable items are what their print is read as. */
  lemma {:induction false} ItemsPrint(items: seq<Item>)
    requires Printable(items)
    ensures Items(Print(items)) == items
  {
    if items != [] {
      var rest := items[1..];
      var tail := Print(rest);
      assert Printable(rest) by {
        forall i | 0 <= i < |rest| && rest[i].End? ensures i == |rest| - 1 { assert items[i + 1].End?; }
        forall i | 0 <= i < |rest| - 1 && rest[i].One? ensures Spell(rest[i + 1])[0] != '*' {
          assert items[i + 1].One?;
        }
      }
      ItemsPrint(rest);
      assert items == [items[0]] + rest;
      match items[0]
      case Star(c) =>
        assert ([c, '*'] + tail)[2..] == tail;
      case End =>
        assert items[0].End?;
        assert rest == [];
        assert "$" + "" == "$";
      case One(c) =>
        assert ([c] + tail)[1..] == tail;
        if rest != [] { assert items[0].One? && tail[0] == Spell(rest[0])[0]; }
    }
  }

  /** A pattern demands the end of the text exactly when its last character is '$'. */
  lemma {:induction false} EndExactly(re: string)
    ensures End in Items(re) <==> re != "" && re[|re| - 1] == '$'
  {
    if re != "" && re != "$" {
      if |re| >= 2 && re[1] == '*' {
        EndExactly(re[2..]);
      } else {
        EndExactly(re[1..]);
      }
    }
  }

  // ----- ordinary patterns -----

  ghost predicate Plain(r: string) { forall i :: 0 <= i < |r| ==> r[i] !in "*$^." }

  function Ones(r: string): (s: seq<Item>)
    ensures |s| == |r|
  {
    if r == "" then [] else [One(r[0])] + Ones(r[1..])
  }

  /** Ordinary characters stand for themselves, before a final '$' too. */
  lemma {:induction false} PlainItems(r: string)
    requires Plain(r)
    ensures Items(r) == Ones(r) && Items(r + "$") == Ones(r) + [End]
  {
    if r == "" {
      assert r + "$" == "$";
    } else {
      PlainItems(r[1..]);
      assert (r + "$")[1..] == r[1..] + "$";
      assert |r| >= 2 ==> r[1] !in "*$^.";
      assert r[0] !in "*$^.";
      assert [One(r[0])] + (Ones(r[1..]) + [End]) == Ones(r) + [End];
    }
  }

  lemma {:induction false} OnesHere(r: string, text: string)
    requires Plain(r)
    ensures Here(Ones(r), text) <==> r <= text
    ensures Here(Ones(r) + [End], text) <==> r == text
  {
    hide Here;
    if r == "" {
      HereNone(text);
      HereEnd(text);
      assert Ones(r) + [End] == [End];
    } else {
      HereOne(r[0], Ones(r[1..]), text);
      HereOne(r[0], Ones(r[1..]) + [End], text);
      assert Ones(r) + [End] == [One(r[0])] + (Ones(r[1..]) + [End]);
      assert r[0] !in "*$^.";
      if text != "" {
        OnesHere(r[1..], text[1..]);
        assert text == [text[0]] + text[1..] && r == [r[0]] + r[1..];
      }
    }
  }

  /** An ordinary pattern finds the texts that contain it. */
  lemma PlainMatches(r: string, text: string)
    requires Plain(r)
    ensures Matches(r, text) <==> exists k :: 0 <= k <= |text| && r <= text[k..]
  {
    hide Here;
    PlainItems(r);
    assert r != "" ==> r[0] !in "*$^.";
    forall k | 0 <= k <= |text| ensures Here(Items(r), text[k..]) <==> r <= text[k..] {
      OnesHere(r, text[k..]);
    }
  }

  /** With '^' those that begin with it. */
  lemma PlainBegins(r: string, text: string)
    requires Plain(r)
    ensures Matches("^" + r, text) <==> r <= text
  {
    PlainItems(r);
    assert ("^" + r)[1..] == r;
    OnesHere(r, text);
  }

  /** With '$' those that end in it. */
  lemma PlainEnds(r: string, text: string)
    requires Plain(r)
    ensures Matches(r + "$", text) <==> |r| <= |text| && text[|text| - |r|..] == r
  {
    hide Here;
    PlainItems(r);
    assert r != "" ==> r[0] !in "*$^." && (r + "$")[0] == r[0];
    forall k | 0 <= k <= |text| ensures Here(Items(r + "$"), text[k..]) <==> r == text[k..] {
      OnesHere(r, text[k..]);
    }
    if |r| <= |text| { assert Here(Items(r + "$"), text[|text| - |r|..]) <==> r == text[|text| - |r|..]; }
    if k :| 0 <= k <= |text| && Here(Items(r + "$"), text[k..]) { assert k == |text| - |r|; }
  }

  /** With both, the text itself. */
  lemma PlainWhole(r: string, text: string)
    requires Plain(r)
    ensures Matches("^" + r + "$", text) <==> r == text
  {
    PlainItems(r);
    assert ("^" + r + "$")[1..] == r + "$";
    OnesHere(r, text);
  }

  /** A starred character is any number of it, '.' any character. */
  lemma StarWhole(c: char, text: string)
    ensures Matches(['^', c, '*', '$'], text) <==> forall i :: 0 <= i < |text| ==> c == '.' || text[i] == c
  {
    hide Here;
    var re := ['^', c, '*', '$'];
    assert re[1..] == [c, '*', '$'] && re[1..][2..] == "$";
    assert Items(re[1..]) == [Star(c)] + Items("$") == [Star(c)] + [End];
    HereStar(c, [End], text);
    forall k | 0 <= k <= |text| ensures Here([End], text[k..]) <==> k == |text| {
      HereEnd(text[k..]);
    }
    if forall i :: 0 <= i < |text| ==> c == '.' || text[i] == c {
      assert Run(c, text, |text|) && Here([End], text[|text|..]);
    }
  }

  /** '.' alone is any one character. */
  lemma DotWhole(text: string)
    ensures Matches("^.$", text) <==> |text| == 1
  {
    hide Here;
    assert "^.$"[1..] == ".$" && ".$"[1..] == "$";
    assert Items(".$") == [One('.')] + Items("$") == [One('.')] + [End];
    HereOne('.', [End], text);
    if text != "" { HereEnd(text[1..]); }
  }

  // ----- the lines grep() selects -----

  /** Line by line, whatever the pattern */
  lemma SelectedCons(re: string, line: string, rest: string)
    requires NL !in line
    ensures Selected(re, line + [NL] + rest) == (if Matches(re, line) then line + [NL] else "") + Selected(re, rest)
    ensures Tail(line + [NL] + rest) == Tail(rest)
  {
    hide Matches;
    var s := line + [NL] + rest;
    BreakAt(s);
    var i := Break(s);
    assert s[|line|] == NL;
    assert forall k :: 0 <= k < |line| ==> s[k] == line[k] && s[k] != NL;
    assert i == |line|;
    assert s[..i] == line && s[..i + 1] == line + [NL] && s[i + 1..] == rest;
  }

  /** Nothing is lost but the lines that do not match: a pattern every text matches gives the input back. */
  lemma {:induction false} SelectedAll(re: string, s: string)
    requires forall t: string :: Matches(re, t)
    ensures Selected(re, s) + Tail(s) == s
    decreases |s|
  {
    hide Matches, Selected, Tail;
    var i := Break(s);
    if i < |s| {
      var line, rest := s[..i], s[i + 1..];
      BreakAt(s);
      assert s == line + [NL] + rest;
      SelectedAll(re, rest);
      SelectedCons(re, line, rest);
      Assoc(line + [NL], Selected(re, rest), Tail(rest));
    } else {
      SelectedNone(re, s);
    }
  }
}
