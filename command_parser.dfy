/** CommandParser and ShellCommand of glitch/parsers/docker_parser.py: a shell
    command line, already split into words by the shell lexer, becomes one
    atomic unit per sub-command. */
module ShellCommands {
  import opened Wrappers
  import opened Text
  import opened DockerIR
  import opened Dicts

  // ---------------------------------------------------------------------------
  // Splitting into sub-commands
  // ---------------------------------------------------------------------------

  /** The tokens that separate sub-commands. */
  predicate IsSeparator(t: string)
  {
    t == "&&" || t == "&" || t == "|"
  }

  function Separators(tokens: seq<string>): seq<string>
  {
    Filter(IsSeparator, tokens)
  }

  /** Puts the separators back between the groups: `g0 s0 g1 s1 ... gn`. */
  function Interleave(groups: seq<seq<string>>, seps: seq<string>): seq<string>
    requires |groups| == |seps| + 1
  {
    if seps == [] then groups[0]
    else Interleave(groups[..|groups| - 1], seps[..|seps| - 1]) + [Last(seps)] + Last(groups)
  }

  /** The groups the sub-command loop produces for the first tokens: the
      current group grows until a separator closes it. */
  function SubCommands(tokens: seq<string>): (groups: seq<seq<string>>)
    ensures |groups| >= 1
  {
    if tokens == [] then [[]]
    else
      var g := SubCommands(tokens[..|tokens| - 1]);
      if IsSeparator(Last(tokens)) then g + [[]]
      else g[..|g| - 1] + [Last(g) + [Last(tokens)]]
  }

  predicate NoSeparatorIn(groups: seq<seq<string>>)
  {
    forall i, j :: 0 <= i < |groups| && 0 <= j < |groups[i]| ==> !IsSeparator(groups[i][j])
  }

  /** The sub-command split loses nothing but the separators: there is one
      group more than separators, no group holds a separator, and putting the
      separators back between the groups gives the token list again. */
  lemma SubCommandsSpec(tokens: seq<string>)
    ensures |SubCommands(tokens)| == |Separators(tokens)| + 1
    ensures NoSeparatorIn(SubCommands(tokens))
    ensures Interleave(SubCommands(tokens), Separators(tokens)) == tokens
  {
    SubCommandsCount(tokens);
    SubCommandsClean(tokens);
    SubCommandsInterleave(tokens);
  }

  /** One token more: a separator opens a new group, any other token joins
      the last group. */
  lemma SubCommandsSnoc(front: seq<string>, t: string)
    ensures var g := SubCommands(front);
            SubCommands(front + [t]) == if IsSeparator(t) then g + [[]] else g[..|g| - 1] + [Last(g) + [t]]
    ensures Separators(front + [t]) == Separators(front) + if IsSeparator(t) then [t] else []
  {
    assert (front + [t])[..|front|] == front;
  }

  lemma {:induction false} SubCommandsCount(tokens: seq<string>)
    ensures |SubCommands(tokens)| == |Separators(tokens)| + 1
  {
    if tokens != [] {
      var front := tokens[..|tokens| - 1];
      SubCommandsCount(front);
      assert tokens == front + [Last(tokens)];
      SubCommandsSnoc(front, Last(tokens));
    }
  }

  lemma {:induction false} SubCommandsClean(tokens: seq<string>)
    ensures NoSeparatorIn(SubCommands(tokens))
  {
    if tokens != [] {
      var g := SubCommands(tokens[..|tokens| - 1]);
      SubCommandsClean(tokens[..|tokens| - 1]);
      if IsSeparator(Last(tokens)) {
        NoSeparatorNewGroup(g);
      } else {
        NoSeparatorExtend(g, Last(tokens));
      }
    }
  }

  lemma NoSeparatorNewGroup(g: seq<seq<string>>)
    requires NoSeparatorIn(g)
    ensures NoSeparatorIn(g + [[]])
  {
    forall i, j | 0 <= i < |g| + 1 && 0 <= j < |(g + [[]])[i]| ensures !IsSeparator((g + [[]])[i][j]) {
      assert i < |g| && (g + [[]])[i] == g[i];
    }
  }

  lemma NoSeparatorExtend(g: seq<seq<string>>, t: string)
    requires g != [] && NoSeparatorIn(g) && !IsSeparator(t)
    ensures NoSeparatorIn(g[..|g| - 1] + [Last(g) + [t]])
  {
    var g' := g[..|g| - 1] + [Last(g) + [t]];
    forall i, j | 0 <= i < |g'| && 0 <= j < |g'[i]| ensures !IsSeparator(g'[i][j]) {
      if i < |g| - 1 {
        assert g'[i] == g[i];
      } else if j < |Last(g)| {
        assert g'[i][j] == g[i][j];
      }
    }
  }

  lemma {:induction false} SubCommandsInterleave(tokens: seq<string>)
    ensures |SubCommands(tokens)| == |Separators(tokens)| + 1
    ensures Interleave(SubCommands(tokens), Separators(tokens)) == tokens
  {
    SubCommandsCount(tokens);
    if tokens != [] {
      var front, t := tokens[..|tokens| - 1], Last(tokens);
      SubCommandsInterleave(front);
      assert tokens == front + [t];
      SubCommandsSnoc(front, t);
      var g, seps := SubCommands(front), Separators(front);
      if IsSeparator(t) {
        var g' := g + [[]];
        assert g'[..|g'| - 1] == g;
        assert (seps + [t])[..|seps|] == seps;
        assert Interleave(g', seps + [t]) == Interleave(g, seps) + [t] + [];
      } else {
        assert Separators(tokens) == seps + [] == seps;
        assert SubCommands(tokens) == g[..|g| - 1] + [Last(g) + [t]];
        InterleaveExtendLast(g, seps, t);
      }
    }
  }

  lemma InterleaveExtendLast(g: seq<seq<string>>, seps: seq<string>, t: string)
    requires |g| == |seps| + 1
    ensures Interleave(g[..|g| - 1] + [Last(g) + [t]], seps) == Interleave(g, seps) + [t]
  {
    var g' := g[..|g| - 1] + [Last(g) + [t]];
    if seps != [] {
      assert g'[..|g'| - 1] == g[..|g| - 1];
    }
  }

  /** `__get_sub_commands`: the token loop collecting groups. */
  method GetSubCommands(tokens: seq<string>) returns (commands: seq<seq<string>>)
    ensures commands == SubCommands(tokens)
  {
    commands := [];
    var tmp: seq<string> := [];
    var i := 0;
    while i < |tokens|
      invariant 0 <= i <= |tokens|
      invariant commands + [tmp] == SubCommands(tokens[..i])
    {
      var part := tokens[i];
      assert tokens[..i + 1][..i] == tokens[..i];
      if IsSeparator(part) {
        commands := commands + [tmp];
        tmp := [];
      } else {
        var g := commands + [tmp];
        assert g[..|g| - 1] == commands;
        tmp := tmp + [part];
      }
      i := i + 1;
    }
    assert tokens[..i] == tokens;
    commands := commands + [tmp];
  }

  /** The options dictionary of a shell command. */
  type Options = Dict<AttrValue>

  // ---------------------------------------------------------------------------
  // Single commands
  // ---------------------------------------------------------------------------

  predicate IsFlag(t: string)
  {
    StartsWith(t, "-")
  }

  /** The dictionary key a dash token sets: leading dashes stripped, and for
      `k=v` only the part before the first `=`. */
  function OptionKey(t: string): string
  {
    var o := LStrip(t, '-');
    if '=' in o then Split(o, '=')[0] else o
  }

  /** The value the dash token at `i` sets: the second `=`-piece of `k=v`;
      otherwise the next token, or `True` when the flag is last or is
      followed by another dash token. */
  function OptionValueAt(args: seq<string>, i: nat): AttrValue
    requires i < |args|
  {
    var o := LStrip(args[i], '-');
    if '=' in o then
      SplitLength(o, '=');
      CountZero('=', o);
      Str(Split(o, '=')[1])
    else if i + 1 == |args| || IsFlag(args[i + 1]) then Bool(true)
    else Str(args[i + 1])
  }

  /** The options dictionary after the option loop has seen the first `n` arguments. */
  function ScanOptions(args: seq<string>, n: nat): Options
    requires n <= |args|
  {
    if n == 0 then []
    else
      var d := ScanOptions(args, n - 1);
      if IsFlag(args[n - 1]) then Put(d, OptionKey(args[n - 1]), OptionValueAt(args, n - 1)) else d
  }

  /** A dash token sets key `k`. */
  predicate SetsKey(args: seq<string>, i: nat, k: string)
    requires i < |args|
  {
    IsFlag(args[i]) && OptionKey(args[i]) == k
  }

  /** Only dash tokens make keys: `k` is in the dictionary exactly when some
      dash token among the first `n` sets it. */
  lemma ScanOptionsKeys(args: seq<string>, n: nat, k: string)
    requires n <= |args|
    ensures Lookup(ScanOptions(args, n), k).Some? <==> exists i :: 0 <= i < n && SetsKey(args, i, k)
  {
    if Lookup(ScanOptions(args, n), k).Some? {
      KeyHasSetter(args, n, k);
    }
    if exists i :: 0 <= i < n && SetsKey(args, i, k) {
      var i :| 0 <= i < n && SetsKey(args, i, k);
      SetterGivesKey(args, n, i, k);
    }
  }

  lemma {:induction false} SetterGivesKey(args: seq<string>, n: nat, i: nat, k: string)
    requires i < n <= |args| && SetsKey(args, i, k)
    ensures Lookup(ScanOptions(args, n), k).Some?
  {
    var t := args[n - 1];
    var d := ScanOptions(args, n - 1);
    if IsFlag(t) {
      PutLookup(d, OptionKey(t), OptionValueAt(args, n - 1), k);
    }
    if i < n - 1 {
      SetterGivesKey(args, n - 1, i, k);
    }
  }

  lemma {:induction false} KeyHasSetter(args: seq<string>, n: nat, k: string)
    requires n <= |args| && Lookup(ScanOptions(args, n), k).Some?
    ensures exists i :: 0 <= i < n && SetsKey(args, i, k)
  {
    if SetsKey(args, n - 1, k) {
      assert 0 <= n - 1 < n;
    } else {
      var t := args[n - 1];
      var d := ScanOptions(args, n - 1);
      if IsFlag(t) {
        PutLookup(d, OptionKey(t), OptionValueAt(args, n - 1), k);
      }
      KeyHasSetter(args, n - 1, k);
      var i :| 0 <= i < n - 1 && SetsKey(args, i, k);
      assert 0 <= i < n;
    }
  }

  /** A key holds the value set by the LAST dash token that names it (a later
      flag overwrites an earlier one). */
  lemma {:induction false} ScanOptionsLastWins(args: seq<string>, n: nat, i: nat)
    requires i < n <= |args| && SetsKey(args, i, OptionKey(args[i]))
    requires forall j :: i < j < n ==> !SetsKey(args, j, OptionKey(args[i]))
    ensures Lookup(ScanOptions(args, n), OptionKey(args[i])) == Some(OptionValueAt(args, i))
  {
    if i == n - 1 {
      ScanOptionsSets(args, n);
    } else {
      ScanOptionsLastWins(args, n - 1, i);
      ScanOptionsKeeps(args, n, OptionKey(args[i]));
    }
  }

  /** The token the loop reads last sets its own key. */
  lemma ScanOptionsSets(args: seq<string>, n: nat)
    requires 0 < n <= |args| && IsFlag(args[n - 1])
    ensures Lookup(ScanOptions(args, n), OptionKey(args[n - 1])) == Some(OptionValueAt(args, n - 1))
  {
    PutLookup(ScanOptions(args, n - 1), OptionKey(args[n - 1]), OptionValueAt(args, n - 1), OptionKey(args[n - 1]));
  }

  /** A token that does not set `k` leaves it as it was. */
  lemma ScanOptionsKeeps(args: seq<string>, n: nat, k: string)
    requires 0 < n <= |args| && !SetsKey(args, n - 1, k)
    ensures Lookup(ScanOptions(args, n), k) == Lookup(ScanOptions(args, n - 1), k)
  {
    if IsFlag(args[n - 1]) {
      PutLookup(ScanOptions(args, n - 1), OptionKey(args[n - 1]), OptionValueAt(args, n - 1), k);
    }
  }

  /** Where the main argument sits: the last argument, unless that one is a
      dash token, in which case the first. */
  function MainArgIndex(args: seq<string>): (i: nat)
    requires |args| > 0
    ensures i < |args|
    ensures i == (if IsFlag(args[|args| - 1]) then 0 else |args| - 1)
  {
    if IsFlag(Last(args)) then 0 else |args| - 1
  }

  function RemoveAt<T>(xs: seq<T>, i: nat): (r: seq<T>)
    requires i < |xs|
    ensures |r| == |xs| - 1
  {
    xs[..i] + xs[i + 1..]
  }

  /** Taking out what was inserted at `p` gives the sequence back, and the
      elements before `p` did not move. */
  lemma RemoveInserted<T>(xs: seq<T>, p: nat, x: T)
    requires p <= |xs|
    ensures var r := xs[..p] + [x] + xs[p..];
            |r| == |xs| + 1 && r[p] == x && (forall k :: 0 <= k < p ==> r[k] == xs[k]) &&
            RemoveAt(r, p) == xs
  {
    var r := xs[..p] + [x] + xs[p..];
    assert r[..p] == xs[..p] && r[p + 1..] == xs[p..];
    assert xs[..p] + xs[p..] == xs;
  }

  /** `__parse_general_command`: takes out the main argument, then fills the
      options from the remaining arguments. None stands for the IndexError of
      an empty argument list. */
  method ParseGeneralCommand(args: seq<string>) returns (r: Option<(string, Options)>)
    ensures r.None? <==> args == []
    ensures r.Some? ==>
              r.value.0 == args[MainArgIndex(args)] &&
              r.value.1 == ScanOptions(RemoveAt(args, MainArgIndex(args)), |args| - 1)
  {
    if |args| == 0 {
      return None;
    }
    var mainArgIndex := if !IsFlag(args[|args| - 1]) then |args| - 1 else 0;
    var mainArg := args[mainArgIndex];
    var rest := RemoveAt(args, mainArgIndex);
    var options: Options := [];
    var i := 0;
    while i < |rest|
      invariant 0 <= i <= |rest|
      invariant options == ScanOptions(rest, i)
    {
      if IsFlag(rest[i]) {
        var key, value := ReadOption(rest, i);
        options := Put(options, key, value);
      }
      i := i + 1;
    }
    r := Some((mainArg, options));
  }

  /** One step of the option loop: the key and value of the dash token at `i`. */
  method ReadOption(rest: seq<string>, i: nat) returns (key: string, value: AttrValue)
    requires i < |rest| && IsFlag(rest[i])
    ensures key == OptionKey(rest[i]) && value == OptionValueAt(rest, i)
  {
    var stripped := LStrip(rest[i], '-');
    if '=' in stripped {
      var option := Split(stripped, '=');
      SplitLength(stripped, '=');
      CountZero('=', stripped);
      key, value := option[0], Str(option[1]);
    } else if |rest| == i + 1 || IsFlag(rest[i + 1]) {
      key, value := stripped, Bool(true);
    } else {
      key, value := stripped, Str(rest[i + 1]);
    }
  }

  /** A parsed command before it becomes an atomic unit. */
  datatype ShellCommand = ShellCommand(sudo: bool, command: string, args: seq<string>,
                                       options: Options, mainArg: string)

  /** Whether an attribute value mentions a shell variable (only strings can). */
  predicate HasVariable(v: AttrValue)
  {
    v.Str? && '$' in v.s
  }

  /** `ShellCommand.to_atomic_unit`: the main argument names the unit, the
      command types it; a `sudo` attribute comes first when present, then one
      attribute per option in dictionary order. */
  function ToAtomicUnit(c: ShellCommand): (au: AtomicUnit)
    ensures au.name == c.mainArg && au.unitType == c.command
    ensures |au.attributes| == |c.options| + (if c.sudo then 1 else 0)
    ensures c.sudo ==> au.attributes[0] == Attribute("sudo", Str("True"), false)
    ensures forall i :: 0 <= i < |c.options| ==>
              var a := au.attributes[i + (if c.sudo then 1 else 0)];
              a.name == c.options[i].0 && a.value == c.options[i].1 &&
              (a.hasVariable <==> c.options[i].1.Str? && '$' in c.options[i].1.s)
  {
    var sudoAttrs := if c.sudo then [Attribute("sudo", Str("True"), false)] else [];
    var optionAttrs := seq(|c.options|, i requires 0 <= i < |c.options| =>
                             Attribute(c.options[i].0, c.options[i].1, HasVariable(c.options[i].1)));
    NewUnit(c.mainArg, c.command).(attributes := sudoAttrs + optionAttrs)
  }

  /** Index of the command word: 1 after a leading `sudo`, else 0. */
  function NameIndex(command: seq<string>): nat
    requires |command| > 0
  {
    if command[0] == "sudo" then 1 else 0
  }

  /** The parsed form of one sub-command, before it becomes a unit; None
      stands for the IndexError the parser catches. */
  function ParsedShellCommand(command: seq<string>): Option<ShellCommand>
  {
    if |command| == 0 || |command| <= NameIndex(command) + 1 then None
    else
      var ni := NameIndex(command);
      var args := command[ni + 1..];
      if command[ni] == "chmod" then
        Some(ShellCommand(ni == 1, "chmod", args, [("mode", Str(args[0]))], Last(args)))
      else
        var k := MainArgIndex(args);
        Some(ShellCommand(ni == 1, command[ni], args, ScanOptions(RemoveAt(args, k), |args| - 1), args[k]))
  }

  /** The unit one sub-command yields. A sub-command is dropped exactly when
      indexing it fails: it is empty, a bare `sudo`, or has no arguments.
      For `chmod` the last argument is the main one and the first is the mode. */
  function SingleCommandUnit(command: seq<string>): (r: Option<AtomicUnit>)
    ensures r.None? <==> |command| < (if |command| > 0 && command[0] == "sudo" then 3 else 2)
    ensures r.Some? ==> r.value.unitType == command[NameIndex(command)]
    ensures r.Some? && command[NameIndex(command)] == "chmod" ==>
              var mode := command[NameIndex(command) + 1];
              r.value.name == Last(command) &&
              Attribute("mode", Str(mode), '$' in mode) in r.value.attributes
    ensures r.Some? && command[NameIndex(command)] != "chmod" ==>
              var args := command[NameIndex(command) + 1..];
              r.value.name == (if IsFlag(Last(args)) then args[0] else Last(args))
    ensures r.Some? && command[0] == "sudo" ==>
              |r.value.attributes| > 0 && r.value.attributes[0] == Attribute("sudo", Str("True"), false)
  {
    match ParsedShellCommand(command)
    case None => None
    case Some(c) =>
      var au := ToAtomicUnit(c);
      assert c.command == "chmod" ==> au.attributes[if c.sudo then 1 else 0] in au.attributes;
      Some(au)
  }

  /** `__parse_single_command` together with `__parse_shell_command`. */
  method ParseSingleCommand(command: seq<string>) returns (r: Option<AtomicUnit>)
    ensures r == SingleCommandUnit(command)
  {
    if |command| == 0 {
      return None;
    }
    var sudo := command[0] == "sudo";
    var nameIndex := if !sudo then 0 else 1;
    if |command| <= nameIndex {
      return None;
    }
    var commandType := command[nameIndex];
    var args := command[nameIndex + 1..];
    if |args| == 0 {
      return None;
    }
    var c: ShellCommand;
    if commandType == "chmod" {
      c := ShellCommand(sudo, commandType, args, [("mode", Str(args[0]))], args[|args| - 1]);
    } else {
      var parsed := ParseGeneralCommand(args);
      c := ShellCommand(sudo, commandType, args, parsed.value.1, parsed.value.0);
    }
    r := Some(ToAtomicUnit(c));
  }

  /** Keeps the present values, in order. */
  function Somes<T>(xs: seq<Option<T>>): (r: seq<T>)
    ensures |r| <= |xs|
  {
    if xs == [] then []
    else Somes(xs[..|xs| - 1]) + (if Last(xs).Some? then [Last(xs).value] else [])
  }

  /** One step of `Somes`: a `Some` at the end adds its value. */
  lemma SomesStep<T>(xs: seq<Option<T>>, i: nat)
    requires i < |xs|
    ensures Somes(xs[..i + 1]) == Somes(xs[..i]) + (if xs[i].Some? then [xs[i].value] else [])
  {
    assert xs[..i + 1][..i] == xs[..i];
  }

  /** The outcome of each sub-command, in order. */
  function ParsedGroups(groups: seq<seq<string>>): (r: seq<Option<AtomicUnit>>)
    ensures |r| == |groups|
  {
    seq(|groups|, i requires 0 <= i < |groups| => SingleCommandUnit(groups[i]))
  }

  /** The units a whole command line yields: one per sub-command that parses. */
  function CommandUnits(tokens: seq<string>): seq<AtomicUnit>
  {
    Somes(ParsedGroups(SubCommands(tokens)))
  }

  /** A command line yields at most one unit per sub-command. */
  lemma CommandUnitsBound(tokens: seq<string>)
    ensures |CommandUnits(tokens)| <= |Separators(tokens)| + 1
  {
    SubCommandsSpec(tokens);
  }

  /** `parse_command`: parse every sub-command, silently dropping those that
      raise IndexError. */
  method ParseCommand(tokens: seq<string>) returns (aus: seq<AtomicUnit>)
    ensures aus == CommandUnits(tokens)
  {
    var commands := GetSubCommands(tokens);
    ghost var parsed := ParsedGroups(commands);
    aus := [];
    var i := 0;
    while i < |commands|
      invariant 0 <= i <= |commands|
      invariant aus == Somes(parsed[..i])
    {
      var au := ParseSingleCommand(commands[i]);
      assert parsed[i] == au;
      SomesStep(parsed, i);
      if au.Some? {
        aus := aus + [au.value];
      }
      i := i + 1;
    }
    assert parsed[..i] == parsed;
  }
}
