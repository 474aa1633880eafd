/**
 * The command list of `api_help`: the command names, except the four built-in ones, laid
 * out after `API Commands: ` with `, ` between them, starting a new line indented by three
 * spaces whenever a name would take the current line past 75 characters.
 */
module HelpText {
  import opened PyText

  const Header: string := "API Commands: "
  const Indent: string := "   "
  const Separator: string := ", "
  const Width: nat := 75

  /** The commands the list leaves out. */
  predicate Hidden(c: string)
  {
    c == "ping" || c == "help" || c == "config" || c == "quitquitquit"
  }

  /** The commands that are listed, in order. */
  function Shown(cmds: seq<string>): (r: seq<string>)
    ensures forall i :: 0 <= i < |r| ==> !Hidden(r[i])
    ensures |r| <= |cmds|
  {
    if cmds == [] then []
    else
      var n := |cmds| - 1;
      Shown(cmds[..n]) + (if Hidden(cmds[n]) then [] else [cmds[n]])
  }

  /** What line `i` starts with. */
  function Lead(i: nat): string
  {
    if i == 0 then Header else Indent
  }

  /** The text of line `i` given the commands on each line. */
  function Line(g: seq<seq<string>>, i: nat): string
    requires i < |g|
  {
    Lead(i) + Join(g[i], Separator)
  }

  /** All lines. */
  function Lines(g: seq<seq<string>>): (r: seq<string>)
    ensures |r| == |g|
    ensures forall i :: 0 <= i < |g| ==> r[i] == Line(g, i)
  {
    seq(|g|, i requires 0 <= i < |g| => Line(g, i))
  }

  /**
   * The layout the loop keeps: every line but the first holds at least one command; a
   * line is at most 77 characters unless it is a continuation line with a single command;
   * and a line ends only because the next command did not fit on it.
   */
  predicate Laid(g: seq<seq<string>>)
  {
    && |g| >= 1
    && (forall i :: 0 < i < |g| ==> g[i] != [])
    && (g == [[]] || g[|g| - 1] != [])
    && (forall i :: 0 <= i < |g| ==> |Line(g, i)| <= Width + |Separator| || (i > 0 && |g[i]| == 1))
    && (forall i :: 0 <= i < |g| - 1 ==> |Line(g, i)| + |g[i + 1][0]| > Width)
  }

  /** `g` with `c` starting a new line. */
  function Break(g: seq<seq<string>>, c: string): (g': seq<seq<string>>)
    ensures |g'| == |g| + 1 && g'[|g|] == [c]
    ensures forall i :: 0 <= i < |g| ==> g'[i] == g[i]
  {
    g + [[c]]
  }

  /** `g` with `c` added to the last line. */
  function Put(g: seq<seq<string>>, c: string): (g': seq<seq<string>>)
    requires |g| >= 1
    ensures |g'| == |g| && g'[|g| - 1] == g[|g| - 1] + [c]
    ensures forall i :: 0 <= i < |g| - 1 ==> g'[i] == g[i]
  {
    g[..|g| - 1] + [g[|g| - 1] + [c]]
  }

  /** The lines before the last one keep their text. */
  lemma PutKeeps(g: seq<seq<string>>, c: string)
    requires |g| >= 1
    ensures forall i :: 0 <= i < |g| - 1 ==> Line(Put(g, c), i) == Line(g, i)
    ensures forall i :: 0 <= i < |g| ==> Line(Break(g, c), i) == Line(g, i)
  {
  }

  /** The last line grows by `, ` and `c`, or by `c` alone when it holds no command yet. */
  lemma PutLine(g: seq<seq<string>>, c: string)
    requires |g| >= 1
    ensures var k := |g| - 1;
      Line(Put(g, c), k) == if g[k] == [] then Line(g, k) + c else Line(g, k) + Separator + c
  {
    var k := |g| - 1;
    if g[k] == [] {
      assert Put(g, c)[k] == [c];
    } else {
      JoinAppend(g[k], c, Separator);
    }
  }

  /** Starting a new line keeps the layout. */
  lemma BreakLaid(g: seq<seq<string>>, c: string)
    requires Laid(g) && |Line(g, |g| - 1)| + |c| > Width
    ensures Laid(Break(g, c))
  {
    PutKeeps(g, c);
    assert Line(Break(g, c), |g|) == Indent + c;
  }

  /** Adding to the last line keeps the layout when the command fits. */
  lemma PutLaid(g: seq<seq<string>>, c: string)
    requires Laid(g) && |Line(g, |g| - 1)| + |c| <= Width
    ensures Laid(Put(g, c))
  {
    PutKeeps(g, c);
    PutLine(g, c);
  }

  /** A new line adds `c` to the commands laid out. */
  lemma BreakConcat(g: seq<seq<string>>, c: string)
    ensures Concat(Break(g, c)) == Concat(g) + [c]
  {
    ConcatAppend(g, [c]);
  }

  /** Adding to the last line adds `c` to the commands laid out. */
  lemma PutConcat(g: seq<seq<string>>, c: string)
    requires |g| >= 1
    ensures Concat(Put(g, c)) == Concat(g) + [c]
  {
    LastGrows(g, c);
  }

  /** Concatenation after one more item on the last row. */
  lemma LastGrows<T>(g: seq<seq<T>>, x: T)
    requires |g| >= 1
    ensures Concat(g[..|g| - 1] + [g[|g| - 1] + [x]]) == Concat(g) + [x]
  {
    var k := |g| - 1;
    var front := g[..k];
    assert g == front + [g[k]];
    ConcatAppend(front, g[k]);
    ConcatAppend(front, g[k] + [x]);
  }

  /** One command of the loop: hidden ones are skipped, others start a new line or extend the last. */
  function Next(g: seq<seq<string>>, c: string): (g': seq<seq<string>>)
    requires Laid(g)
    ensures Laid(g')
  {
    if Hidden(c) then g
    else if |Line(g, |g| - 1)| + |c| > Width then BreakLaid(g, c); Break(g, c)
    else PutLaid(g, c); Put(g, c)
  }

  /** The commands on each line, as the loop lays them out. */
  function Groups(cmds: seq<string>): (g: seq<seq<string>>)
    ensures Laid(g)
  {
    if cmds == [] then [[]] else Next(Groups(cmds[..|cmds| - 1]), cmds[|cmds| - 1])
  }

  /** The layout of one more command. */
  lemma GroupsNext(cmds: seq<string>, i: nat)
    requires i < |cmds|
    ensures Groups(cmds[..i + 1]) == Next(Groups(cmds[..i]), cmds[i])
  {
    assert cmds[..i + 1][..i] == cmds[..i];
  }

  /** One step of the loop adds the command to those laid out unless it is hidden. */
  lemma NextConcat(g: seq<seq<string>>, c: string)
    requires Laid(g)
    ensures Concat(Next(g, c)) == Concat(g) + (if Hidden(c) then [] else [c])
  {
    if !Hidden(c) {
      BreakConcat(g, c);
      PutConcat(g, c);
    }
  }

  /** Every listed command is on exactly one line, in order. */
  lemma {:induction false} GroupsPartition(cmds: seq<string>)
    ensures Concat(Groups(cmds)) == Shown(cmds)
    decreases |cmds|
  {
    if cmds != [] {
      var n := |cmds| - 1;
      GroupsPartition(cmds[..n]);
      NextConcat(Groups(cmds[..n]), cmds[n]);
    }
  }

  /** Hidden commands change nothing. */
  lemma HiddenIgnored(cmds: seq<string>, c: string)
    requires Hidden(c)
    ensures Groups(cmds + [c]) == Groups(cmds)
  {
    assert (cmds + [c])[..|cmds|] == cmds;
  }

  /** The lines after a new line is started. */
  lemma LinesBreak(g: seq<seq<string>>, c: string)
    requires |g| >= 1
    ensures Lines(Break(g, c)) == Lines(g) + [Indent + c]
  {
    PutKeeps(g, c);
  }

  /** The lines after the last one takes a command. */
  lemma LinesPut(g: seq<seq<string>>, c: string)
    requires |g| >= 1
    ensures Lines(Put(g, c)) == Lines(g)[..|g| - 1] + [Line(Put(g, c), |g| - 1)]
  {
    PutKeeps(g, c);
  }

  /**
   * The loop of `api_help` building `cmd_list`; `commands` are the names in the order the
   * loop visits them.
   */
  method CommandList(commands: seq<string>) returns (cmdList: seq<string>)
    ensures cmdList == Lines(Groups(commands))
  {
    cmdList := [Header];
    var first := true;
    var i := 0;
    ghost var g: seq<seq<string>> := [[]];
    assert Line(g, 0) == Header;
    while i < |commands|
      invariant 0 <= i <= |commands|
      invariant g == Groups(commands[..i])
      invariant cmdList == Lines(g)
      invariant first <==> g == [[]]
    {
      var command := commands[i];
      GroupsNext(commands, i);
      if !Hidden(command) {
        var n := |cmdList| - 1;
        var line := cmdList[n];
        if |line| + |command| > Width {
          LinesBreak(g, command);
          cmdList := cmdList + [Indent];
          n := n + 1;
          line := Indent;
          g := Break(g, command);
        } else {
          PutLine(g, command);
          LinesPut(g, command);
          if !first {
            line := line + Separator;
          }
          g := Put(g, command);
        }
        line := line + command;
        cmdList := cmdList[..n] + [line];
        first := false;
      }
      i := i + 1;
    }
    assert commands[..i] == commands;
  }
}
