/** The idle check: a worklist walk over a process table from the pane processes down. A row is one line
    of the process listing, split at blanks: pid, parent pid, state, program, then its arguments. */
module IdleCheck {
  import opened Outcomes

  type Row = seq<string>

  type Pid = string

  datatype Kind = Command | Script | Interactive

  // ---------- one row ----------

  predicate Numeric(s: string) {
    s != "" && forall i | 0 <= i < |s| :: '0' <= s[i] <= '9'
  }

  predicate WellFormed(f: Row) {
    |f| >= 5 && Numeric(f[0]) && Numeric(f[1])
  }

  predicate StartsWith(s: string, prefix: string) {
    |prefix| <= |s| && s[..|prefix|] == prefix
  }

  function Program(f: Row): string
    requires |f| >= 5
  {
    if StartsWith(f[3], "-") then f[3][1..] else f[3]
  }

  predicate Shell(program: string) {
    program in {"sh", "bash", "zsh", "fish", "dash", "ksh", "mksh", "ash", "tcsh", "csh", "busybox"}
  }

  predicate Passthrough(program: string) {
    program in {"login", "sudo", "su", "doas"} || StartsWith(program, "gitstatusd")
  }

  /** A dash and then `flag` before any other dash: a group of short options holding `flag`. */
  predicate Group(arg: string, flag: char) {
    StartsWith(arg, "-") && exists j | 1 <= j < |arg| :: arg[j] == flag && forall m | 1 <= m < j :: arg[m] != '-'
  }

  predicate TakesFile(arg: string) {
    arg == "--rcfile" || arg == "--init-file"
  }

  predicate SaysCommand(arg: string) {
    Group(arg, 'c') || StartsWith(arg, "--command")
  }

  predicate SaysScript(arg: string) {
    Group(arg, 's') || !(StartsWith(arg, "-") || StartsWith(arg, "+"))
  }

  /** What the arguments from `i` on make of a shell; the first telling one decides. */
  function KindFrom(f: Row, i: nat): Kind
    decreases |f| - i
  {
    if i >= |f| then Interactive
    else if TakesFile(f[i]) then KindFrom(f, i + 2)
    else if SaysCommand(f[i]) then Command
    else if SaysScript(f[i]) then Script
    else KindFrom(f, i + 1)
  }

  // ---------- what the arguments say, word by word ----------

  /** An option that says nothing of what the shell was started for, or a file option with its file. */
  predicate Piece(p: seq<string>) {
    || (|p| == 1 && !TakesFile(p[0]) && !SaysCommand(p[0]) && !SaysScript(p[0]))
    || (|p| == 2 && TakesFile(p[0]))
  }

  function Flat(pieces: seq<seq<string>>): seq<string> {
    if pieces == [] then [] else pieces[0] + Flat(pieces[1..])
  }

  /** What the words behind the pieces come to: nothing left, at most a file option without its file, or
      a first word that says command or, if not that, script. */
  predicate Decides(rest: seq<string>, k: Kind) {
    match k
    case Interactive => rest == [] || (|rest| == 1 && TakesFile(rest[0]))
    case Command => rest != [] && SaysCommand(rest[0]) && !TakesFile(rest[0])
    case Script => rest != [] && SaysScript(rest[0]) && !SaysCommand(rest[0]) && !TakesFile(rest[0])
  }

  /** The arguments are pieces first, and what is behind them decides. */
  ghost predicate Says(args: seq<string>, k: Kind) {
    exists pieces: seq<seq<string>> ::
      (forall p | p in pieces :: Piece(p)) && Flat(pieces) <= args && Decides(args[|Flat(pieces)|..], k)
  }

  lemma {:induction false} PiecesAreSkipped(f: Row, i: nat, pieces: seq<seq<string>>)
    requires i <= |f| && (forall p | p in pieces :: Piece(p)) && Flat(pieces) <= f[i..]
    ensures KindFrom(f, i) == KindFrom(f, i + |Flat(pieces)|)
    decreases |pieces|
  {
    if pieces == [] {
    } else {
      var (p, rest) := (pieces[0], Flat(pieces[1..]));
      assert p in pieces && Flat(pieces) == p + rest;
      assert f[i] == Flat(pieces)[0] == p[0];
      assert f[i..][|p|..] == f[i + |p|..] && Flat(pieces)[|p|..] == rest;
      assert rest <= f[i + |p|..];
      PiecesAreSkipped(f, i + |p|, pieces[1..]);
    }
  }

  lemma {:induction false} PiecesExist(f: Row, i: nat) returns (pieces: seq<seq<string>>)
    requires i <= |f|
    ensures (forall p | p in pieces :: Piece(p)) && Flat(pieces) <= f[i..]
    ensures Decides(f[i..][|Flat(pieces)|..], KindFrom(f, i))
    decreases |f| - i
  {
    pieces := [];
    if i < |f| && ((TakesFile(f[i]) && i + 1 < |f|) || Piece([f[i]])) {
      var p := if TakesFile(f[i]) then [f[i], f[i + 1]] else [f[i]];
      var more := PiecesExist(f, i + |p|);
      pieces := [p] + more;
      assert pieces[1..] == more && Flat(pieces) == p + Flat(more);
      assert f[i..] == p + f[i + |p|..];
      assert f[i..][|Flat(pieces)|..] == f[i + |p|..][|Flat(more)|..];
    } else {
      var rest := f[i..];
      assert Flat(pieces) == [] && rest[0..] == rest;
      assert i < |f| ==> rest[0] == f[i] && [f[i]][0] == f[i];
      assert i < |f| && TakesFile(f[i]) ==> |rest| == 1 && KindFrom(f, i) == Interactive;
    }
  }

  /** Reading the arguments one by one finds exactly what they say, and they say one thing only. */
  lemma {:induction false} KindIsSaid(f: Row, k: Kind)
    requires |f| >= 5
    ensures Says(f[5..], k) <==> KindFrom(f, 5) == k
  {
    var found := PiecesExist(f, 5);
    if pieces: seq<seq<string>> :|
        (forall p | p in pieces :: Piece(p)) && Flat(pieces) <= f[5..] && Decides(f[5..][|Flat(pieces)|..], k) {
      PiecesAreSkipped(f, 5, pieces);
      assert f[5..][|Flat(pieces)|..] == f[5 + |Flat(pieces)|..];
      RestDecides(f, 5 + |Flat(pieces)|, k);
    }
  }

  lemma {:induction false} RestDecides(f: Row, n: nat, k: Kind)
    requires n <= |f| && Decides(f[n..], k)
    ensures KindFrom(f, n) == k
  {
    assert f[n..] != [] ==> f[n..][0] == f[n];
  }

  /** A group of short options: a dash, then no further dash before the flag. */
  lemma {:induction false} GroupsBySplitting(arg: string, flag: char)
    requires flag != '-'
    ensures Group(arg, flag) <==>
              exists before: string, after: string :: '-' !in before && arg == "-" + before + [flag] + after
  {
    if Group(arg, flag) {
      var j :| 1 <= j < |arg| && arg[j] == flag && forall m | 1 <= m < j :: arg[m] != '-';
      var (before, after) := (arg[1..j], arg[j + 1..]);
      assert arg == "-" + before + [flag] + after;
    }
    if before: string, after: string :| '-' !in before && arg == "-" + before + [flag] + after {
      var j := 1 + |before|;
      assert arg[..1] == "-" && arg[j] == flag;
      forall m | 1 <= m < j ensures arg[m] != '-' {
        assert arg[m] == before[m - 1];
      }
    }
  }

  /** A login shell's program name carries one dash more. */
  lemma {:induction false} ProgramDropsOneDash(f: Row, name: string)
    requires |f| >= 5
    ensures Program(f) == name <==> f[3] == "-" + name || (f[3] == name && !StartsWith(name, "-"))
  {
    assert StartsWith(f[3], "-") ==> f[3] == "-" + f[3][1..];
  }

  lemma {:induction false} CommonOptions()
    ensures Piece(["-i"]) && Piece(["-l"]) && TakesFile("--rcfile") && TakesFile("--init-file")
    ensures SaysCommand("-c") && SaysCommand("-lc") && !TakesFile("-c") && !TakesFile("-lc")
    ensures SaysScript("-s") && !SaysCommand("-s") && !TakesFile("-s")
  {
    assert "-c"[1] == 'c' && "-s"[1] == 's' && "-lc"[2] == 'c' && "-lc"[1] != '-';
    assert "-c"[..1] == "-" && "-lc"[..1] == "-" && "-s"[..1] == "-" && "-i"[..1] == "-" && "-l"[..1] == "-";
    assert Group("-c", 'c') && Group("-lc", 'c') && Group("-s", 's');
  }

  /** Options that start with a plus say nothing, and any that starts with `--command` says command. */
  lemma {:induction false} OtherOptions(rest: string)
    ensures Piece(["+" + rest]) && SaysCommand("--command" + rest) && !TakesFile("--command" + rest)
  {
    assert ("+" + rest)[0] == '+' && "--rcfile"[0] == '-' && "--init-file"[0] == '-' && "--command"[0] == '-';
    assert ("+" + rest)[..1] == "+" && ("--command" + rest)[..9] == "--command";
    assert "--rcfile"[2] == 'r' && "--init-file"[2] == 'i' && ("--command" + rest)[2] == 'c';
  }

  /** The programs known to be shells, and those a shell may hang from. */
  lemma {:induction false} KnownPrograms(name: string)
    ensures Shell(name) <==>
              || name == "sh" || name == "bash" || name == "zsh" || name == "fish" || name == "dash" || name == "ksh"
              || name == "mksh" || name == "ash" || name == "tcsh" || name == "csh" || name == "busybox"
    ensures Passthrough(name) <==>
              || name == "login" || name == "sudo" || name == "su" || name == "doas"
              || exists rest: string :: name == "gitstatusd" + rest
  {
    assert StartsWith(name, "gitstatusd") ==> name == "gitstatusd" + name[10..];
    if rest: string :| name == "gitstatusd" + rest {
      assert name[..10] == "gitstatusd";
    }
  }

  /** A word that is no option names a script. */
  lemma {:induction false} PlainWordsAreScripts(word: string)
    requires word == "" || (word[0] != '-' && word[0] != '+')
    ensures SaysScript(word) && !SaysCommand(word) && !TakesFile(word)
  {
    assert word != "" ==> word[..1] == [word[0]];
  }

  /** Shells as they are started in a container, by a remote command, from a pipe and for a script. */
  lemma {:induction false} CommonShells(file: string, command: string, script: string)
    requires script == "" || (script[0] != '-' && script[0] != '+')
    ensures Says(["--rcfile", file] + ["-i"], Interactive) && Says([] + ["-l"], Interactive)
    ensures Says([] + ["-c", command], Command) && Says([] + ["-lc", command], Command)
    ensures Says([] + ["-s"], Script) && Says(["--init-file", file] + [script], Script)
  {
    CommonOptions();
    PlainWordsAreScripts(script);
    OptionsSay(["--rcfile", file], ["-i"], Interactive);
    OptionsSay([], ["-l"], Interactive);
    OptionsSay([], ["-c", command], Command);
    OptionsSay([], ["-lc", command], Command);
    OptionsSay([], ["-s"], Script);
    OptionsSay(["--init-file", file], [script], Script);
  }

  /** A file option with its file, if any, then words that decide, or one that says nothing. */
  lemma {:induction false} OptionsSay(file: seq<string>, rest: seq<string>, k: Kind)
    requires file == [] || Piece(file)
    requires Decides(rest, k) || (|rest| == 1 && Piece(rest) && k == Interactive)
    ensures Says(file + rest, k)
  {
    var first: seq<seq<string>> := if file == [] then [] else [file];
    var pieces := if Decides(rest, k) then first else first + [rest];
    assert Flat([]) == [];
    assert file != [] ==> [file][1..] == [] && Flat([file]) == file;
    assert [rest][1..] == [] && Flat([rest]) == rest;
    assert file != [] ==> [file, rest][1..] == [rest] && Flat([file, rest]) == file + rest;
    if Decides(rest, k) {
      assert Flat(pieces) == file && (file + rest)[|file|..] == rest;
    } else {
      assert Flat(pieces) == file + rest && (file + rest)[|file + rest|..] == [];
    }
  }

  method ClassifyShell(f: Row) returns (k: Kind)
    requires |f| >= 5
    ensures k == KindFrom(f, 5)
    ensures Says(f[5..], k) && forall said | Says(f[5..], said) :: said == k
  {
    forall said ensures Says(f[5..], said) <==> said == KindFrom(f, 5) {
      KindIsSaid(f, said);
    }
    var i := 5;
    while i < |f|
      invariant KindFrom(f, i) == KindFrom(f, 5)
      decreases |f| - i
    {
      if TakesFile(f[i]) {
        i := i + 1;
      } else if SaysCommand(f[i]) {
        return Command;
      } else if SaysScript(f[i]) {
        return Script;
      }
      i := i + 1;
    }
    return Interactive;
  }

  // ---------- the whole table ----------

  ghost predicate IsRow(rows: seq<Row>, f: Row, x: Pid) {
    f in rows && WellFormed(f) && f[0] == x
  }

  ghost predicate Distinct(rows: seq<Row>) {
    forall i, j | 0 <= i < j < |rows| :: WellFormed(rows[i]) && WellFormed(rows[j]) ==> rows[i][0] != rows[j][0]
  }

  ghost predicate Child(rows: seq<Row>, parent: Pid, x: Pid) {
    exists f :: IsRow(rows, f, x) && f[1] == parent
  }

  ghost predicate ShellRow(rows: seq<Row>, x: Pid) {
    exists f :: IsRow(rows, f, x) && Shell(Program(f))
  }

  ghost predicate CommandShell(rows: seq<Row>, x: Pid) {
    exists f :: IsRow(rows, f, x) && Shell(Program(f)) && Says(f[5..], Command)
  }

  ghost predicate Path(rows: seq<Row>, roots: seq<Pid>, path: seq<Pid>) {
    path != [] && path[0] in roots && forall i | 0 < i < |path| :: Child(rows, path[i - 1], path[i])
  }

  ghost predicate Reach(rows: seq<Row>, roots: seq<Pid>, x: Pid) {
    exists path :: Path(rows, roots, path) && path[|path| - 1] == x
  }

  /** A process that may go on existing: known, not running, and a pass-through program or a shell that
      runs no script and, if given a command, is a pane itself or the child of such a shell. */
  ghost predicate Harmless(rows: seq<Row>, roots: seq<Pid>, x: Pid) {
    exists f :: IsRow(rows, f, x) && !StartsWith(f[2], "R") &&
                if Shell(Program(f)) then
                  && !Says(f[5..], Script)
                  && (Says(f[5..], Command) ==>
                        x in roots || exists p :: Child(rows, p, x) && CommandShell(rows, p))
                else Passthrough(Program(f))
  }

  ghost predicate Idle(rows: seq<Row>, roots: seq<Pid>) {
    && (forall f | f in rows :: WellFormed(f))
    && (exists f :: IsRow(rows, f, "1"))
    && roots != []
    && forall x | Reach(rows, roots, x) :: Harmless(rows, roots, x)
  }

  /** An idle table has panes, a line for process 1, and only lines of at least five fields of which the
      first two are numbers. */
  lemma {:induction false} IdleTablesAreUsable(rows: seq<Row>, roots: seq<Pid>)
    requires Idle(rows, roots)
    ensures roots != [] && (exists g :: g in rows && |g| >= 5 && g[0] == "1")
    ensures forall f | f in rows :: |f| >= 5 && DigitsOnly(f[0]) && DigitsOnly(f[1])
  {
  }

  ghost predicate DigitsOnly(s: string) {
    s != "" && forall c | c in s :: c in "0123456789"
  }

  lemma {:induction false} OneRow(rows: seq<Row>, f: Row, g: Row, x: Pid)
    requires Distinct(rows) && IsRow(rows, f, x) && IsRow(rows, g, x)
    ensures f == g
  {
  }

  lemma {:induction false} RootsReach(rows: seq<Row>, roots: seq<Pid>, x: Pid)
    requires x in roots
    ensures Reach(rows, roots, x)
  {
    assert Path(rows, roots, [x]);
  }

  lemma {:induction false} ChildrenReach(rows: seq<Row>, roots: seq<Pid>, p: Pid, x: Pid)
    requires Reach(rows, roots, p) && Child(rows, p, x)
    ensures Reach(rows, roots, x)
  {
    var path :| Path(rows, roots, path) && path[|path| - 1] == p;
    assert Path(rows, roots, path + [x]);
  }

  /** A set that holds the roots and all children of its members holds everything reachable. */
  lemma {:induction false} ClosedHoldsReach(rows: seq<Row>, roots: seq<Pid>, v: set<Pid>, path: seq<Pid>)
    requires forall r | r in roots :: r in v
    requires forall p, x | p in v && Child(rows, p, x) :: x in v
    requires Path(rows, roots, path)
    ensures path[|path| - 1] in v
  {
    if |path| == 1 {
    } else {
      assert Path(rows, roots, path[..|path| - 1]);
      ClosedHoldsReach(rows, roots, v, path[..|path| - 1]);
    }
  }

  /** In an idle table every shell that was given a command hangs from a pane by such shells only. */
  lemma {:induction false} CommandShellsHangFromPanes(rows: seq<Row>, roots: seq<Pid>, path: seq<Pid>)
      returns (chain: seq<Pid>)
    requires Distinct(rows) && Idle(rows, roots)
    requires Path(rows, roots, path) && CommandShell(rows, path[|path| - 1])
    ensures Path(rows, roots, chain) && chain[|chain| - 1] == path[|path| - 1]
    ensures forall p | p in chain :: CommandShell(rows, p)
  {
    var x := path[|path| - 1];
    if x in roots {
      chain := [x];
    } else {
      var init := path[..|path| - 1];
      PathSplits(rows, roots, path);
      ParentIsCommandShell(rows, roots, init[|init| - 1], x);
      chain := CommandShellsHangFromPanes(rows, roots, init);
      PathGrows(rows, roots, chain, x);
      chain := chain + [x];
    }
  }

  lemma {:induction false} PathSplits(rows: seq<Row>, roots: seq<Pid>, path: seq<Pid>)
    requires Path(rows, roots, path) && path[|path| - 1] !in roots
    ensures |path| > 1 && Path(rows, roots, path[..|path| - 1]) && Reach(rows, roots, path[|path| - 1])
    ensures Child(rows, path[|path| - 2], path[|path| - 1])
  {
  }

  lemma {:induction false} PathGrows(rows: seq<Row>, roots: seq<Pid>, path: seq<Pid>, x: Pid)
    requires Path(rows, roots, path) && Child(rows, path[|path| - 1], x)
    ensures Path(rows, roots, path + [x])
  {
  }

  lemma {:induction false} ParentIsCommandShell(rows: seq<Row>, roots: seq<Pid>, p: Pid, x: Pid)
    requires Distinct(rows) && Child(rows, p, x) && x !in roots
    requires Harmless(rows, roots, x) && CommandShell(rows, x)
    ensures CommandShell(rows, p)
  {
    var f :| IsRow(rows, f, x) && f[1] == p;
    forall g | IsRow(rows, g, x) ensures g == f { OneRow(rows, f, g, x); }
  }

  // ---------- the walk ----------

  function Kids(k: map<Pid, seq<Pid>>, p: Pid): seq<Pid> {
    if p in k then k[p] else []
  }

  /** `lines` stands for the arrays C, S and L, which hold parts of one line and the line itself. */
  ghost predicate Tabulates(rows: seq<Row>, lines: map<Pid, Row>, kids: map<Pid, seq<Pid>>) {
    && (forall x | x in lines :: IsRow(rows, lines[x], x))
    && (forall f | f in rows :: WellFormed(f) && f[0] in lines)
    && (forall p, x :: x in Kids(kids, p) <==> Child(rows, p, x))
  }

  lemma {:induction false} TabulatesRow(rows: seq<Row>, lines: map<Pid, Row>, kids: map<Pid, seq<Pid>>, f: Row)
    requires Tabulates(rows, lines, kids) && WellFormed(f)
    ensures Tabulates(rows + [f], lines[f[0] := f], kids[f[1] := Kids(kids, f[1]) + [f[0]]])
  {
    var rows', kids' := rows + [f], kids[f[1] := Kids(kids, f[1]) + [f[0]]];
    forall p, x ensures x in Kids(kids', p) <==> Child(rows', p, x) {
      if Child(rows, p, x) {
        var g :| IsRow(rows, g, x) && g[1] == p;
        assert IsRow(rows', g, x);
      }
      if p == f[1] && x == f[0] {
        assert IsRow(rows', f, x);
      }
      assert x in Kids(kids', p) <==> x in Kids(kids, p) || (p == f[1] && x == f[0]);
    }
  }

  method Tabulate(rows: seq<Row>) returns (bad: bool, lines: map<Pid, Row>, kids: map<Pid, seq<Pid>>)
    ensures bad <==> exists f :: f in rows && !WellFormed(f)
    ensures !bad ==> Tabulates(rows, lines, kids)
  {
    bad, lines, kids := false, map[], map[];
    for i := 0 to |rows|
      invariant bad <==> exists f :: f in rows[..i] && !WellFormed(f)
      invariant !bad ==> Tabulates(rows[..i], lines, kids)
    {
      var f := rows[i];
      assert rows[..i + 1] == rows[..i] + [f];
      if !WellFormed(f) {
        bad := true;
      } else {
        if !bad {
          TabulatesRow(rows[..i], lines, kids, f);
        }
        lines := lines[f[0] := f];
        kids := kids[f[1] := Kids(kids, f[1]) + [f[0]]];
      }
    }
    assert rows[..|rows|] == rows;
  }

  /** What is known of an entry of the queue: a pane at the front, then children of visited processes,
      each carrying whether its parent is a shell that was given a command. */
  ghost predicate Queued(rows: seq<Row>, roots: seq<Pid>, queue: seq<Pid>, under: seq<bool>, visited: set<Pid>) {
    && roots <= queue && |under| == |queue|
    && (forall i | 0 <= i < |roots| :: under[i])
    && forall i | |roots| <= i < |queue| ::
         exists p :: p in visited && Child(rows, p, queue[i]) && (under[i] <==> CommandShell(rows, p))
  }

  ghost predicate Visited(rows: seq<Row>, roots: seq<Pid>, queue: seq<Pid>, head: nat, visited: set<Pid>)
    requires head <= |queue|
  {
    && Seen(queue, head, visited)
    && Cleared(rows, roots, visited)
    && Closed(rows, visited, queue)
  }

  ghost predicate Seen(queue: seq<Pid>, head: nat, visited: set<Pid>)
    requires head <= |queue|
  {
    forall i | 0 <= i < head :: queue[i] in visited
  }

  lemma {:induction false} SeenGrows(queue: seq<Pid>, head: nat, visited: set<Pid>, m: seq<Pid>)
    requires head < |queue| && Seen(queue, head, visited)
    ensures Seen(queue + m, head + 1, visited + {queue[head]})
  {
  }

  ghost predicate Closed(rows: seq<Row>, visited: set<Pid>, queue: seq<Pid>) {
    forall p, x | p in visited && Child(rows, p, x) :: x in queue
  }

  ghost predicate Cleared(rows: seq<Row>, roots: seq<Pid>, visited: set<Pid>) {
    forall x | x in visited :: Reach(rows, roots, x) && Harmless(rows, roots, x)
  }

  lemma {:induction false} ClearedGrows(rows: seq<Row>, roots: seq<Pid>, visited: set<Pid>, x: Pid)
    requires Cleared(rows, roots, visited) && Reach(rows, roots, x) && Harmless(rows, roots, x)
    ensures Cleared(rows, roots, visited + {x})
  {
    forall y | y in visited + {x} ensures Reach(rows, roots, y) && Harmless(rows, roots, y) {
      assert y in visited || y == x;
    }
  }

  lemma {:induction false} VisitCloses(rows: seq<Row>, visited: set<Pid>, queue: seq<Pid>, x: Pid, m: seq<Pid>)
    requires Closed(rows, visited, queue) && forall y | Child(rows, x, y) :: y in m
    ensures Closed(rows, visited + {x}, queue + m)
  {
    forall p, y | p in visited + {x} && Child(rows, p, y) ensures y in queue + m {
      assert p in visited ==> y in queue;
    }
  }

  ghost predicate Printed(rows: seq<Row>, visited: set<Pid>, shells: seq<Pid>) {
    && (forall i, j | 0 <= i < j < |shells| :: shells[i] != shells[j])
    && (forall x :: x in shells <==> x in visited && ShellRow(rows, x))
  }

  lemma {:induction false} QueuedReach(rows: seq<Row>, roots: seq<Pid>, queue: seq<Pid>, under: seq<bool>,
                                       head: nat, visited: set<Pid>)
    requires head < |queue| && Queued(rows, roots, queue, under, visited)
    requires Visited(rows, roots, queue, head, visited)
    ensures Reach(rows, roots, queue[head])
  {
    if head < |roots| {
      RootsReach(rows, roots, queue[head]);
    } else {
      var p :| p in visited && Child(rows, p, queue[head]) && (under[head] <==> CommandShell(rows, p));
      ChildrenReach(rows, roots, p, queue[head]);
    }
  }

  /** The flag of the entry that is about to be visited says exactly whether a `-c` shell may stand there. */
  lemma {:induction false} FlagTells(rows: seq<Row>, roots: seq<Pid>, queue: seq<Pid>, under: seq<bool>,
                                     head: nat, visited: set<Pid>)
    requires Distinct(rows) && head < |queue| && queue[head] !in visited
    requires Queued(rows, roots, queue, under, visited)
    requires Visited(rows, roots, queue, head, visited)
    ensures under[head] <==> queue[head] in roots || exists p :: Child(rows, p, queue[head]) && CommandShell(rows, p)
  {
    var x := queue[head];
    if head < |roots| {
      assert x == roots[head];
    } else {
      forall i | 0 <= i < |roots| ensures roots[i] != x {
        assert queue[i] == roots[i];
      }
      var p :| p in visited && Child(rows, p, x) && (under[head] <==> CommandShell(rows, p));
      forall q | Child(rows, q, x) ensures q == p {
        var f :| IsRow(rows, f, x) && f[1] == p;
        var g :| IsRow(rows, g, x) && g[1] == q;
        OneRow(rows, f, g, x);
      }
    }
  }

  /** With distinct ids a process is judged by its one row, and by the flag. */
  lemma {:induction false} JudgedByRow(rows: seq<Row>, roots: seq<Pid>, x: Pid, f: Row, flag: bool)
    requires Distinct(rows) && IsRow(rows, f, x)
    requires flag <==> x in roots || exists p :: Child(rows, p, x) && CommandShell(rows, p)
    ensures Harmless(rows, roots, x) <==>
              && !StartsWith(f[2], "R")
              && if Shell(Program(f)) then KindFrom(f, 5) != Script && (KindFrom(f, 5) == Command ==> flag)
                 else Passthrough(Program(f))
    ensures ShellRow(rows, x) <==> Shell(Program(f))
    ensures CommandShell(rows, x) <==> Shell(Program(f)) && KindFrom(f, 5) == Command
  {
    forall g | IsRow(rows, g, x) ensures g == f { OneRow(rows, f, g, x); }
    KindIsSaid(f, Script);
    KindIsSaid(f, Command);
  }

  /** So the entry about to be visited is judged by its row and its own flag. */
  lemma {:induction false} Judged(rows: seq<Row>, roots: seq<Pid>, queue: seq<Pid>, under: seq<bool>, head: nat,
                                  visited: set<Pid>, f: Row)
    requires Distinct(rows) && head < |queue| && queue[head] !in visited && IsRow(rows, f, queue[head])
    requires Queued(rows, roots, queue, under, visited)
    requires Visited(rows, roots, queue, head, visited)
    ensures Harmless(rows, roots, queue[head]) <==>
              && !StartsWith(f[2], "R")
              && if Shell(Program(f)) then KindFrom(f, 5) != Script && (KindFrom(f, 5) == Command ==> under[head])
                 else Passthrough(Program(f))
    ensures ShellRow(rows, queue[head]) <==> Shell(Program(f))
    ensures CommandShell(rows, queue[head]) <==> Shell(Program(f)) && KindFrom(f, 5) == Command
  {
    FlagTells(rows, roots, queue, under, head, visited);
    JudgedByRow(rows, roots, queue[head], f, under[head]);
  }

  lemma {:induction false} VisitKeepsQueue(rows: seq<Row>, roots: seq<Pid>, queue: seq<Pid>, under: seq<bool>,
                                           visited: set<Pid>, x: Pid, m: seq<Pid>, w: bool)
    requires Queued(rows, roots, queue, under, visited)
    requires forall y | y in m :: Child(rows, x, y)
    requires w <==> CommandShell(rows, x)
    ensures Queued(rows, roots, queue + m, under + seq(|m|, _ => w), visited + {x})
  {
    var queue', under', visited' := queue + m, under + seq(|m|, _ => w), visited + {x};
    forall i | |roots| <= i < |queue'|
      ensures exists p :: p in visited' && Child(rows, p, queue'[i]) && (under'[i] <==> CommandShell(rows, p))
    {
      if i < |queue| {
        var p :| p in visited && Child(rows, p, queue[i]) && (under[i] <==> CommandShell(rows, p));
        assert p in visited' && queue'[i] == queue[i] && under'[i] == under[i];
      } else {
        assert queue'[i] == m[i - |queue|] && under'[i] == w;
        assert m[i - |queue|] in m && Child(rows, x, queue'[i]);
      }
    }
  }

  lemma {:induction false} VisitKeeps(rows: seq<Row>, roots: seq<Pid>, queue: seq<Pid>, head: nat,
                                      visited: set<Pid>, m: seq<Pid>)
    requires head < |queue| && queue[head] !in visited && Reach(rows, roots, queue[head])
    requires Visited(rows, roots, queue, head, visited)
    requires Harmless(rows, roots, queue[head])
    requires forall y :: y in m <==> Child(rows, queue[head], y)
    ensures Visited(rows, roots, queue + m, head + 1, visited + {queue[head]})
  {
    SeenGrows(queue, head, visited, m);
    VisitCloses(rows, visited, queue, queue[head], m);
    ClearedGrows(rows, roots, visited, queue[head]);
  }

  lemma {:induction false} SkipKeeps(rows: seq<Row>, roots: seq<Pid>, queue: seq<Pid>, head: nat,
                                     visited: set<Pid>)
    requires head < |queue| && queue[head] in visited && Visited(rows, roots, queue, head, visited)
    ensures Visited(rows, roots, queue, head + 1, visited)
  {
  }

  lemma {:induction false} AllVisited(rows: seq<Row>, roots: seq<Pid>, queue: seq<Pid>, under: seq<bool>,
                                      visited: set<Pid>)
    requires Queued(rows, roots, queue, under, visited)
    requires Visited(rows, roots, queue, |queue|, visited)
    ensures forall x :: Reach(rows, roots, x) <==> x in visited
  {
    forall r | r in roots ensures r in visited { assert r in queue; }
    forall x | Reach(rows, roots, x) ensures x in visited {
      var path :| Path(rows, roots, path) && path[|path| - 1] == x;
      ClosedHoldsReach(rows, roots, visited, path);
    }
  }

  lemma {:induction false} PrintedGrows(rows: seq<Row>, visited: set<Pid>, shells: seq<Pid>, x: Pid)
    requires Printed(rows, visited, shells) && x !in visited
    ensures ShellRow(rows, x) ==> Printed(rows, visited + {x}, shells + [x])
    ensures !ShellRow(rows, x) ==> Printed(rows, visited + {x}, shells)
  {
  }

  /** Succeeds exactly on an idle table, and then prints every reachable shell once. Process ids are
      distinct in a listing; nothing else is assumed of it, so parents may form cycles. */
  method VoltiusIdle(rows: seq<Row>, roots: seq<Pid>) returns (ok: bool, shells: seq<Pid>)
    requires Distinct(rows)
    ensures ok <==> Idle(rows, roots)
    ensures ok ==>
              && (forall i, j | 0 <= i < j < |shells| :: shells[i] != shells[j])
              && (forall x :: x in shells <==> Reach(rows, roots, x) && ShellRow(rows, x))
  {
    shells := [];
    var bad, lines, kids := Tabulate(rows);
    if bad || "1" !in lines || roots == [] {
      return false, shells;
    }
    var queue, under, visited: set<Pid>, h := roots, seq(|roots|, _ => true), {}, 0;
    while h < |queue|
      invariant h <= |queue|
      invariant visited <= lines.Keys
      invariant Queued(rows, roots, queue, under, visited)
      invariant Visited(rows, roots, queue, h, visited)
      invariant Printed(rows, visited, shells)
      decreases lines.Keys - visited, |queue| - h
    {
      var x := queue[h];
      QueuedReach(rows, roots, queue, under, h, visited);
      if x !in lines || StartsWith(lines[x][2], "R") {
        Refused(rows, roots, x, lines);
        return false, shells;
      }
      if x in visited {
        SkipKeeps(rows, roots, queue, h, visited);
        h := h + 1;
        continue;
      }
      var f := lines[x];
      Judged(rows, roots, queue, under, h, visited, f);
      PrintedGrows(rows, visited, shells, x);
      var w := false;
      if Shell(Program(f)) {
        var k := ClassifyShell(f);
        if k == Script || (k == Command && !under[h]) {
          return false, shells;
        }
        w := k == Command;
        shells := shells + [x];
      } else if !Passthrough(Program(f)) {
        return false, shells;
      }
      var m := Kids(kids, x);
      VisitKeepsQueue(rows, roots, queue, under, visited, x, m, w);
      VisitKeeps(rows, roots, queue, h, visited, m);
      visited := visited + {x};
      queue := queue + m;
      under := under + seq(|m|, _ => w);
      h := h + 1;
    }
    AllVisited(rows, roots, queue, under, visited);
    assert IsRow(rows, lines["1"], "1");
    return true, shells;
  }

  lemma {:induction false} Refused(rows: seq<Row>, roots: seq<Pid>, x: Pid, lines: map<Pid, Row>)
    requires Distinct(rows) && Reach(rows, roots, x)
    requires forall f | f in rows :: WellFormed(f) && f[0] in lines
    requires forall y | y in lines :: IsRow(rows, lines[y], y)
    requires x in lines ==> WellFormed(lines[x]) && StartsWith(lines[x][2], "R")
    ensures !Idle(rows, roots)
  {
    forall g | IsRow(rows, g, x) ensures x in lines && g == lines[x] {
      OneRow(rows, g, lines[x], x);
    }
  }

  /** The sum does not depend on where it is split, so on the order neither; one process counts its own. */
  lemma {:induction false} SumsAdd(ticks: map<Pid, nat>, a: seq<Pid>, b: seq<Pid>)
    requires forall p | p in a + b :: p in ticks
    ensures forall p | p in a || p in b :: p in ticks
    ensures Sum(ticks, a + b) == Sum(ticks, a) + Sum(ticks, b)
    ensures |a| == 1 ==> Sum(ticks, a) == ticks[a[0]]
    ensures a == [] ==> Sum(ticks, a) == 0
  {
    forall p | p in a || p in b ensures p in ticks {
      assert p in a + b;
    }
    if b == [] {
      assert a + b == a;
    } else {
      var init := b[..|b| - 1];
      assert (a + b)[..|a + b| - 1] == a + init;
      SumsAdd(ticks, a, init);
    }
    assert |a| == 1 ==> a[..0] == [];
  }

  function Sum(ticks: map<Pid, nat>, ps: seq<Pid>): nat
    requires forall p | p in ps :: p in ticks
  {
    if ps == [] then 0 else Sum(ticks, ps[..|ps| - 1]) + ticks[ps[|ps| - 1]]
  }

  /** The CPU time of the reachable shells, or nothing when the table is not idle or a shell is gone.
      `ticks` holds the user and system time of the processes that can still be read. */
  method VoltiusQuiet(rows: seq<Row>, roots: seq<Pid>, ticks: map<Pid, nat>)
      returns (r: Option<nat>, ghost shells: seq<Pid>)
    requires Distinct(rows)
    ensures (r.Some? <==> Idle(rows, roots) && forall x | Reach(rows, roots, x) && ShellRow(rows, x) :: x in ticks)
    ensures r.Some? ==>
              && (forall i, j | 0 <= i < j < |shells| :: shells[i] != shells[j])
              && (forall x :: x in shells <==> Reach(rows, roots, x) && ShellRow(rows, x))
              && (forall x | x in shells :: x in ticks) && r.value == Sum(ticks, shells)
  {
    var ok, printed := VoltiusIdle(rows, roots);
    r, shells := None, printed;
    if !ok {
      return;
    }
    var n := 0;
    for i := 0 to |printed|
      invariant forall x | x in printed[..i] :: x in ticks
      invariant n == Sum(ticks, printed[..i])
    {
      assert printed[i] in printed;
      if printed[i] !in ticks {
        return;
      }
      assert printed[..i + 1][..i] == printed[..i];
      n := n + ticks[printed[i]];
    }
    assert printed[..|printed|] == printed;
    r := Some(n);
  }
}
