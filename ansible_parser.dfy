/** The Ansible side of thesis/parsers/cmof.py: comment extraction, the task
    loop of `__parse_tasks` and the variable flattening of `__parse_vars`,
    over YAML documents that ruamel.yaml has already loaded. */
module AnsibleParser {
  import opened Wrappers
  import opened Text

  /** A loaded YAML value. A scalar that is not a string carries the text
      `str()` gives for it. */
  datatype YValue =
    | YNull
    | YStr(s: string)
    | YScalar(text: string)
    | YList(items: seq<YValue>)
    | YMap(entries: seq<Entry>)

  /** One key of a mapping, in document order. */
  datatype Entry = Entry(key: string, value: YValue)

  /** `str(v)`. How ruamel's list and mapping classes print is not part of
      this model, so their text is the parameter `show`. */
  function Str(v: YValue, show: YValue -> string): string
  {
    match v
    case YNull => "None"
    case YStr(s) => s
    case YScalar(text) => text
    case _ => show(v)
  }

  /** The records of thesis/repr/inter.py (not part of this model), reduced to
      what the Ansible parser fills in; an atomic unit's type is always "". */
  datatype Attribute = Attribute(name: string, value: string)

  datatype AtomicUnit = AtomicUnit(name: string, attributes: seq<Attribute>)

  datatype Variable = Variable(name: string, value: string)

  datatype Comment = Comment(content: string)

  class UnitBlock {
    var name: string
    var atomicUnits: seq<AtomicUnit>
    var variables: seq<Variable>
    var comments: seq<Comment>
    var dependencies: seq<YValue>

    constructor (name: string)
      ensures this.name == name && atomicUnits == [] && variables == []
      ensures comments == [] && dependencies == []
    {
      this.name := name;
      atomicUnits := [];
      variables := [];
      comments := [];
      dependencies := [];
    }
  }

  // ---------------------------------------------------------------------
  // Comments

  /** A slot of ruamel's comment attachments: empty, a comment token with its
      0-based line, or a nested list of slots. */
  datatype Token = NoToken | CommentToken(line: int, value: string) | TokenList(tokens: seq<Token>)

  /** `extract_from_token`: the (line, text) of every comment token, depth first. */
  function ExtractFromToken(tokens: seq<Token>): seq<(int, string)>
    decreases tokens
  {
    if tokens == [] then [] else ExtractFromToken(tokens[..|tokens| - 1]) + ExtractSlot(tokens[|tokens| - 1])
  }

  /** What one slot contributes. */
  function ExtractSlot(t: Token): seq<(int, string)>
    decreases t
  {
    match t
    case NoToken => []
    case CommentToken(line, value) => [(line, value)]
    case TokenList(inner) => ExtractFromToken(inner)
  }

  /** Extraction distributes over concatenation: it keeps the tokens' order. */
  lemma {:induction false} ExtractConcat(a: seq<Token>, b: seq<Token>)
    ensures ExtractFromToken(a + b) == ExtractFromToken(a) + ExtractFromToken(b)
    decreases |b|
  {
    if b == [] {
      assert a + b == a;
    } else {
      var n := |b| - 1;
      var ab := a + b;
      assert ab[..|ab| - 1] == a + b[..n] && ab[|ab| - 1] == b[n];
      var slot := ExtractSlot(b[n]);
      ExtractConcat(a, b[..n]);
      var p, q := ExtractFromToken(a), ExtractFromToken(b[..n]);
      assert (p + q) + slot == p + (q + slot);
    }
  }

  /** What one slot contributes: nothing for an empty slot, its own entry for
      a token, and the flattening of its contents for a nested list. With
      ExtractConcat this fixes the result on every input. */
  lemma ExtractOne(t: Token)
    ensures t.NoToken? ==> ExtractFromToken([t]) == []
    ensures t.CommentToken? ==> ExtractFromToken([t]) == [(t.line, t.value)]
    ensures t.TokenList? ==> ExtractFromToken([t]) == ExtractFromToken(t.tokens)
  {
    assert [t][..0] == [];
  }

  /** `(c[0] + 1, c[1].strip())`. */
  function Cleaned(c: (int, string)): (int, string)
  {
    (c.0 + 1, Strip(c.1))
  }

  predicate HasHash(c: (int, string))
  {
    '#' in c.1
  }

  /** The comment filter of `__get_yaml_comments`: lines made 1-based, texts
      stripped, and only texts holding '#' kept. */
  function YamlComments(raw: seq<(int, string)>): (r: seq<(int, string)>)
    ensures |r| <= |raw|
  {
    MapFilter(Cleaned, HasHash, raw)
  }

  /** An entry is in the result exactly when it is the shifted, stripped form
      of a raw entry whose text holds '#': stripping never removes a '#'. */
  lemma YamlCommentsSpec(raw: seq<(int, string)>, e: (int, string))
    ensures e in YamlComments(raw) <==>
            exists i :: 0 <= i < |raw| && '#' in raw[i].1 && e == Cleaned(raw[i])
  {
    MapFilterMember(Cleaned, HasHash, raw, e);
    if e in YamlComments(raw) {
      var i :| 0 <= i < |raw| && HasHash(Cleaned(raw[i])) && e == Cleaned(raw[i]);
      StripKeeps(raw[i].1, '#');
    }
    if exists i :: 0 <= i < |raw| && '#' in raw[i].1 && e == Cleaned(raw[i]) {
      var i :| 0 <= i < |raw| && '#' in raw[i].1 && e == Cleaned(raw[i]);
      StripKeeps(raw[i].1, '#');
    }
  }

  /** The filter keeps the order of the raw entries. */
  lemma YamlCommentsConcat(a: seq<(int, string)>, b: seq<(int, string)>)
    ensures YamlComments(a + b) == YamlComments(a) + YamlComments(b)
  {
    MapFilterConcat(Cleaned, HasHash, a, b);
  }

  /** The block comments made from the filtered entries: only the text of
      each entry is kept. */
  function Comments(cs: seq<(int, string)>): (r: seq<Comment>)
    ensures |r| == |cs|
    ensures forall i :: 0 <= i < |r| ==> r[i] == Comment(cs[i].1)
  {
    seq(|cs|, i requires 0 <= i < |cs| => Comment(cs[i].1))
  }

  // ---------------------------------------------------------------------
  // Tasks

  /** The state of the key loop over one task: the unit's name and
      attributes so far, the dependencies added, and whether an `include`
      ended the loop. */
  datatype TaskScan = TaskScan(unitName: string, attributes: seq<Attribute>, dependencies: seq<YValue>, stopped: bool)

  const StartScan := TaskScan("", [], [], false)

  /** Values `__parse_tasks` turns into attributes; any other value makes
      `for atr in val` raise TypeError. */
  predicate GivesAttributes(v: YValue)
  {
    v.YStr? || v.YList? || v.YMap?
  }

  /** One attribute per entry of a mapping value. */
  function MapAttributes(es: seq<Entry>, show: YValue -> string): (r: seq<Attribute>)
    ensures |r| == |es|
    ensures forall i :: 0 <= i < |es| ==> r[i] == Attribute(es[i].key, Str(es[i].value, show))
  {
    if es == [] then []
    else MapAttributes(es[..|es| - 1], show) + [Attribute(es[|es| - 1].key, Str(es[|es| - 1].value, show))]
  }

  /** The attributes of one module key: `str(val)` for a string or a list,
      one per entry for a mapping. */
  function EntryAttributes(e: Entry, show: YValue -> string): seq<Attribute>
    requires GivesAttributes(e.value)
  {
    if e.value.YMap? then MapAttributes(e.value.entries, show)
    else [Attribute(e.key, Str(e.value, show))]
  }

  /** One turn of the key loop. */
  function ScanStep(s: TaskScan, e: Entry, show: YValue -> string): Result<TaskScan>
  {
    if s.stopped then Ok(s)
    else if e.key == "include" then Ok(s.(dependencies := s.dependencies + [e.value], stopped := true))
    else if e.key == "name" then Ok(s)
    else if !GivesAttributes(e.value) then Err("TypeError")
    else Ok(s.(unitName := if s.unitName == "" then e.key else s.unitName,
               attributes := s.attributes + EntryAttributes(e, show)))
  }

  /** The key loop over a task's entries, in order. */
  function ScanEntries(es: seq<Entry>, show: YValue -> string): Result<TaskScan>
  {
    if es == [] then Ok(StartScan)
    else
      match ScanEntries(es[..|es| - 1], show)
      case Err(m) => Err(m)
      case Ok(s) => ScanStep(s, es[|es| - 1], show)
  }

  /** Position of the first `include` key, or the number of keys. */
  function IncludeIndex(es: seq<Entry>): (k: nat)
    ensures k <= |es|
    ensures k < |es| ==> es[k].key == "include"
    ensures forall i :: 0 <= i < k ==> es[i].key != "include"
  {
    if es == [] || es[0].key == "include" then 0 else 1 + IncludeIndex(es[1..])
  }

  /** The first key before any `include` that is neither "name" nor empty. */
  function FirstModuleKey(es: seq<Entry>): string
  {
    if es == [] || es[0].key == "include" then ""
    else if es[0].key != "name" && es[0].key != "" then es[0].key
    else FirstModuleKey(es[1..])
  }

  /** A key that the loop turns into attributes. */
  predicate IsModuleKey(e: Entry)
  {
    e.key != "include" && e.key != "name"
  }

  lemma {:induction false} IncludeIndexSnoc(a: seq<Entry>, e: Entry)
    ensures IncludeIndex(a + [e]) ==
            if IncludeIndex(a) < |a| then IncludeIndex(a) else if e.key == "include" then |a| else |a| + 1
  {
    if a != [] {
      assert (a + [e])[1..] == a[1..] + [e];
      IncludeIndexSnoc(a[1..], e);
    }
  }

  lemma {:induction false} FirstModuleKeySnoc(a: seq<Entry>, e: Entry)
    ensures FirstModuleKey(a + [e]) ==
            if FirstModuleKey(a) != "" || IncludeIndex(a) < |a| then FirstModuleKey(a)
            else if IsModuleKey(e) && e.key != "" then e.key else ""
  {
    if a != [] {
      assert (a + [e])[1..] == a[1..] + [e];
      FirstModuleKeySnoc(a[1..], e);
    }
  }

  /** The key loop, characterised without the loop: it fails exactly when a
      module key before the first `include` has a value that gives no
      attributes; the unit is named by the first such key that is not empty;
      the only dependency is the value of the first `include`, which ends
      the loop. */
  lemma ScanSpec(es: seq<Entry>, show: YValue -> string)
    ensures var k := IncludeIndex(es);
            ScanEntries(es, show).Ok? <==>
            forall i :: 0 <= i < k && IsModuleKey(es[i]) ==> GivesAttributes(es[i].value)
    ensures var k := IncludeIndex(es);
            ScanEntries(es, show).Ok? ==>
            var s := ScanEntries(es, show).value;
            s.unitName == FirstModuleKey(es) &&
            s.stopped == (k < |es|) &&
            s.dependencies == (if k < |es| then [es[k].value] else [])
  {
    ScanOk(es, show);
    ScanValue(es, show);
  }

  lemma {:induction false} ScanValue(es: seq<Entry>, show: YValue -> string)
    ensures var k := IncludeIndex(es);
            ScanEntries(es, show).Ok? ==>
            var s := ScanEntries(es, show).value;
            s.unitName == FirstModuleKey(es) &&
            s.stopped == (k < |es|) &&
            s.dependencies == (if k < |es| then [es[k].value] else [])
  {
    if es != [] {
      var n := |es| - 1;
      var a, e := es[..n], es[n];
      assert es == a + [e];
      ScanValue(a, show);
      IncludeIndexSnoc(a, e);
      FirstModuleKeySnoc(a, e);
      if IncludeIndex(a) < n {
        assert es[IncludeIndex(a)] == a[IncludeIndex(a)];
      }
    }
  }

  lemma {:induction false} ScanOk(es: seq<Entry>, show: YValue -> string)
    ensures var k := IncludeIndex(es);
            ScanEntries(es, show).Ok? <==>
            forall i :: 0 <= i < k && IsModuleKey(es[i]) ==> GivesAttributes(es[i].value)
  {
    if es != [] {
      var n := |es| - 1;
      var a, e := es[..n], es[n];
      assert es == a + [e];
      ScanOk(a, show);
      ScanValue(a, show);
      IncludeIndexSnoc(a, e);
      ScanStepOk(a, e, show);
      assert forall i :: 0 <= i < n ==> a[i] == es[i];
    }
  }

  /** One more key fails the loop exactly when the loop has not stopped and
      the key is a module key whose value gives no attributes. */
  lemma ScanStepOk(a: seq<Entry>, e: Entry, show: YValue -> string)
    requires ScanEntries(a, show).Ok? ==> ScanEntries(a, show).value.stopped == (IncludeIndex(a) < |a|)
    ensures ScanEntries(a + [e], show).Ok? <==>
            ScanEntries(a, show).Ok? && (IncludeIndex(a) < |a| || !IsModuleKey(e) || GivesAttributes(e.value))
  {
    assert (a + [e])[..|a|] == a;
  }

  /** Once the loop has failed or met `include`, later keys change nothing. */
  lemma {:induction false} ScanSettled(es: seq<Entry>, j: nat, show: YValue -> string)
    requires j <= |es|
    requires ScanEntries(es[..j], show).Err? || ScanEntries(es[..j], show).value.stopped
    ensures ScanEntries(es, show) == ScanEntries(es[..j], show)
    decreases |es| - j
  {
    if j < |es| {
      assert es[..j + 1][..j] == es[..j];
      ScanSettled(es, j + 1, show);
    } else {
      assert es[..j] == es;
    }
  }

  /** The outcome of one task: a task that is not a mapping has no `items`. */
  function TaskOf(task: YValue, show: YValue -> string): Result<TaskScan>
  {
    if task.YMap? then ScanEntries(task.entries, show) else Err("AttributeError")
  }

  /** The units and dependencies the task loop adds to the block. */
  datatype Tasks = Tasks(units: seq<AtomicUnit>, dependencies: seq<YValue>)

  /** The task loop: a task adds its unit only when it found a name. Every
      unit added is named, and there is at most one per task. */
  function TasksOutcome(tasks: seq<YValue>, show: YValue -> string): (r: Result<Tasks>)
    ensures r.Ok? ==> |r.value.units| <= |tasks|
    ensures r.Ok? ==> forall u :: u in r.value.units ==> u.name != ""
  {
    if tasks == [] then Ok(Tasks([], []))
    else
      match TasksOutcome(tasks[..|tasks| - 1], show)
      case Err(m) => Err(m)
      case Ok(acc) =>
        match TaskOf(tasks[|tasks| - 1], show)
        case Err(m) => Err(m)
        case Ok(s) =>
          Ok(Tasks(acc.units + (if s.unitName != "" then [AtomicUnit(s.unitName, s.attributes)] else []),
                   acc.dependencies + s.dependencies))
  }

  /** The task loop fails exactly when one of the tasks does. */
  lemma {:induction false} TasksOk(tasks: seq<YValue>, show: YValue -> string)
    ensures TasksOutcome(tasks, show).Ok? <==> forall i :: 0 <= i < |tasks| ==> TaskOf(tasks[i], show).Ok?
  {
    if tasks != [] {
      var n := |tasks| - 1;
      TasksOk(tasks[..n], show);
      assert forall i :: 0 <= i < n ==> tasks[..n][i] == tasks[i];
    }
  }

  /** The unit of a task (if any) comes right after those of the tasks before it. */
  lemma TasksSnoc(tasks: seq<YValue>, i: nat, show: YValue -> string)
    requires i < |tasks| && TasksOutcome(tasks[..i], show).Ok? && TaskOf(tasks[i], show).Ok?
    ensures var s := TaskOf(tasks[i], show).value;
            var acc := TasksOutcome(tasks[..i], show).value;
            TasksOutcome(tasks[..i + 1], show) ==
            Ok(Tasks(acc.units + (if s.unitName != "" then [AtomicUnit(s.unitName, s.attributes)] else []),
                     acc.dependencies + s.dependencies))
  {
    var upto := tasks[..i + 1];
    assert upto[..|upto| - 1] == tasks[..i] && upto[|upto| - 1] == tasks[i];
  }

  /** A failing task ends the loop with its own error. */
  lemma TasksFail(tasks: seq<YValue>, i: nat, show: YValue -> string)
    requires i < |tasks| && TasksOutcome(tasks[..i], show).Ok? && TaskOf(tasks[i], show).Err?
    ensures TasksOutcome(tasks, show) == Err(TaskOf(tasks[i], show).error)
  {
    var upto := tasks[..i + 1];
    assert upto[..|upto| - 1] == tasks[..i] && upto[|upto| - 1] == tasks[i];
    assert TasksOutcome(upto, show) == Err(TaskOf(tasks[i], show).error);
    TasksSettled(tasks, i + 1, show);
  }

  lemma {:induction false} TasksSettled(tasks: seq<YValue>, j: nat, show: YValue -> string)
    requires j <= |tasks| && TasksOutcome(tasks[..j], show).Err?
    ensures TasksOutcome(tasks, show) == TasksOutcome(tasks[..j], show)
    decreases |tasks| - j
  {
    if j < |tasks| {
      assert tasks[..j + 1][..j] == tasks[..j];
      TasksSettled(tasks, j + 1, show);
    } else {
      assert tasks[..j] == tasks;
    }
  }

  /** `__parse_tasks` on a loaded file: None gives an empty block; a list is
      a list of tasks; iterating a mapping or a string gives strings, which
      have no `items`; any other scalar is not iterable. The comments follow
      the tasks. */
  function TasksFile(file: YValue, raw: seq<(int, string)>, show: YValue -> string): Result<(Tasks, seq<Comment>)>
  {
    match file
    case YNull => Ok((Tasks([], []), []))
    case YList(tasks) =>
      (match TasksOutcome(tasks, show)
       case Err(m) => Err(m)
       case Ok(t) => Ok((t, Comments(YamlComments(raw)))))
    case YMap(es) => if es == [] then Ok((Tasks([], []), Comments(YamlComments(raw)))) else Err("AttributeError")
    case YStr(s) => if s == "" then Ok((Tasks([], []), Comments(YamlComments(raw)))) else Err("AttributeError")
    case YScalar(_) => Err("TypeError")
  }

  /** A list of tasks, an empty mapping and an empty string all go through
      the task loop; the last two give it no task. */
  lemma TasksFileLoop(file: YValue, raw: seq<(int, string)>, show: YValue -> string)
    requires file.YList? || file == YMap([]) || file == YStr("")
    ensures var r := TasksOutcome(if file.YList? then file.items else [], show);
            TasksFile(file, raw, show) == if r.Err? then Err(r.error) else Ok((r.value, Comments(YamlComments(raw))))
  {
  }

  /** The key loop of one task, with the `break` at `include`. */
  method ScanTask(entries: seq<Entry>, show: YValue -> string) returns (r: Result<TaskScan>)
    ensures r == ScanEntries(entries, show)
  {
    var name := "";
    var attributes: seq<Attribute> := [];
    var dependencies: seq<YValue> := [];
    var i := 0;
    while i < |entries|
      invariant 0 <= i <= |entries|
      invariant ScanEntries(entries[..i], show) == Ok(TaskScan(name, attributes, dependencies, false))
    {
      var key, val := entries[i].key, entries[i].value;
      assert entries[..i + 1][..i] == entries[..i];
      if key == "include" {
        dependencies := dependencies + [val];
        ScanSettled(entries, i + 1, show);
        return Ok(TaskScan(name, attributes, dependencies, true));
      }
      if key != "name" {
        if name == "" {
          name := key;
        }
        if val.YStr? || val.YList? {
          attributes := attributes + [Attribute(key, Str(val, show))];
        } else if val.YMap? {
          var es := val.entries;
          ghost var before := attributes;
          var j := 0;
          while j < |es|
            invariant 0 <= j <= |es|
            invariant attributes == before + MapAttributes(es[..j], show)
          {
            assert es[..j + 1][..j] == es[..j];
            attributes := attributes + [Attribute(es[j].key, Str(es[j].value, show))];
            j := j + 1;
          }
          assert es[..j] == es;
        } else {
          ScanSettled(entries, i + 1, show);
          return Err("TypeError");
        }
      }
      i := i + 1;
    }
    assert entries[..i] == entries;
    return Ok(TaskScan(name, attributes, dependencies, false));
  }

  /** The task loop of `__parse_tasks`. */
  method RunTasks(tasks: seq<YValue>, show: YValue -> string) returns (r: Result<Tasks>)
    ensures r == TasksOutcome(tasks, show)
  {
    var units: seq<AtomicUnit> := [];
    var dependencies: seq<YValue> := [];
    var i := 0;
    while i < |tasks|
      invariant 0 <= i <= |tasks|
      invariant TasksOutcome(tasks[..i], show) == Ok(Tasks(units, dependencies))
    {
      var task := tasks[i];
      var s: Result<TaskScan> := Err("AttributeError");
      if task.YMap? {
        s := ScanTask(task.entries, show);
      }
      assert s == TaskOf(task, show);
      if s.Err? {
        TasksFail(tasks, i, show);
        return Err(s.error);
      }
      TasksSnoc(tasks, i, show);
      dependencies := dependencies + s.value.dependencies;
      if s.value.unitName != "" {
        units := units + [AtomicUnit(s.value.unitName, s.value.attributes)];
      } else {
        assert units + [] == units;
      }
      i := i + 1;
    }
    assert tasks[..i] == tasks;
    return Ok(Tasks(units, dependencies));
  }

  /** `__parse_tasks`: `ok` is false when the source raises. `rawComments` is
      what ruamel's comment attachments yield for the file. */
  method ParseTasks(name: string, file: YValue, rawComments: seq<(int, string)>, show: YValue -> string)
    returns (ok: bool, block: UnitBlock)
    ensures fresh(block) && block.name == name && block.variables == []
    ensures ok <==> TasksFile(file, rawComments, show).Ok?
    ensures ok ==> var (t, cs) := TasksFile(file, rawComments, show).value;
                   block.atomicUnits == t.units && block.dependencies == t.dependencies && block.comments == cs
  {
    block := new UnitBlock(name);
    if file.YNull? {
      return true, block;
    }
    if !(file.YList? || file == YMap([]) || file == YStr("")) {
      return false, block;
    }
    var tasks: seq<YValue> := if file.YList? then file.items else [];
    var r := RunTasks(tasks, show);
    TasksFileLoop(file, rawComments, show);
    if r.Err? {
      return false, block;
    }
    var comments := YamlComments(rawComments);
    block.atomicUnits := r.value.units;
    block.dependencies := r.value.dependencies;
    AddComments(block, comments);
    EmptyAppend(Comments(comments));
    ok := true;
  }

  lemma EmptyAppend<T>(xs: seq<T>)
    ensures [] + xs == xs
  {
  }

  /** The comment loop of `__parse_tasks`, over the entries
      `__get_yaml_comments` gives: one comment per entry, in order, and
      nothing else in the block changes. */
  method AddComments(block: UnitBlock, comments: seq<(int, string)>)
    modifies block
    ensures block.comments == old(block.comments) + Comments(comments)
    ensures block.name == old(block.name) && block.variables == old(block.variables)
    ensures block.atomicUnits == old(block.atomicUnits) && block.dependencies == old(block.dependencies)
  {
    var added: seq<Comment> := [];
    var k := 0;
    while k < |comments|
      invariant 0 <= k <= |comments| && |added| == k
      invariant forall j :: 0 <= j < k ==> added[j] == Comment(comments[j].1)
    {
      added := added + [Comment(comments[k].1)];
      k := k + 1;
    }
    assert added == Comments(comments);
    block.comments := block.comments + added;
  }

  // ---------------------------------------------------------------------
  // Variables

  /** `parse_var`: every value that is not a mapping becomes a variable named
      by the keys leading to it, joined with '.'. */
  function FlattenVars(prefix: string, es: seq<Entry>, show: YValue -> string): seq<Variable>
    decreases es
  {
    if es == [] then [] else FlattenVars(prefix, es[..|es| - 1], show) + FlattenEntry(prefix, es[|es| - 1], show)
  }

  /** The variables of one key: those below it for a mapping, else itself. */
  function FlattenEntry(prefix: string, e: Entry, show: YValue -> string): seq<Variable>
    decreases e
  {
    match e.value
    case YMap(inner) => FlattenVars(prefix + e.key + ".", inner, show)
    case _ => [Variable(prefix + e.key, Str(e.value, show))]
  }

  /** A value that is not a mapping, with the keys that lead to it. */
  datatype Leaf = Leaf(path: seq<string>, value: YValue)

  function Under(key: string, ls: seq<Leaf>): (r: seq<Leaf>)
    ensures |r| == |ls|
    ensures forall i :: 0 <= i < |ls| ==> r[i] == Leaf([key] + ls[i].path, ls[i].value)
  {
    seq(|ls|, i requires 0 <= i < |ls| => Leaf([key] + ls[i].path, ls[i].value))
  }

  /** The leaves of a mapping, depth first in key order. No leaf is a
      mapping, and every leaf is reached by at least one key. */
  function Leaves(es: seq<Entry>): (r: seq<Leaf>)
    ensures forall l :: l in r ==> l.path != [] && !l.value.YMap?
    decreases es
  {
    if es == [] then []
    else
      var e := es[|es| - 1];
      Leaves(es[..|es| - 1]) +
      (match e.value
       case YMap(inner) => Under(e.key, Leaves(inner))
       case _ => [Leaf([e.key], e.value)])
  }

  /** `k1.k2. ... .kn`. */
  function DotJoin(path: seq<string>): string
  {
    if path == [] then "" else if |path| == 1 then path[0] else path[0] + "." + DotJoin(path[1..])
  }

  /** The variable a leaf should give under `prefix`. */
  function LeafVariable(prefix: string, l: Leaf, show: YValue -> string): Variable
  {
    Variable(prefix + DotJoin(l.path), Str(l.value, show))
  }

  /** `vs` holds, position by position, the variables of the leaves `ls`. */
  predicate VariablesOfLeaves(prefix: string, vs: seq<Variable>, ls: seq<Leaf>, show: YValue -> string)
  {
    |vs| == |ls| && forall i :: 0 <= i < |vs| ==> vs[i] == LeafVariable(prefix, ls[i], show)
  }

  lemma VariablesOfLeavesConcat(prefix: string, vs: seq<Variable>, ls: seq<Leaf>,
                                vs': seq<Variable>, ls': seq<Leaf>, show: YValue -> string)
    requires VariablesOfLeaves(prefix, vs, ls, show) && VariablesOfLeaves(prefix, vs', ls', show)
    ensures VariablesOfLeaves(prefix, vs + vs', ls + ls', show)
  {
  }

  /** Moving a key from the prefix into the leaves' paths. */
  lemma VariablesOfLeavesUnder(prefix: string, key: string, vs: seq<Variable>, ls: seq<Leaf>, show: YValue -> string)
    requires VariablesOfLeaves(prefix + key + ".", vs, ls, show)
    requires forall l :: l in ls ==> l.path != []
    ensures VariablesOfLeaves(prefix, vs, Under(key, ls), show)
  {
    var under := Under(key, ls);
    forall j | 0 <= j < |ls|
      ensures vs[j] == LeafVariable(prefix, under[j], show)
    {
      assert ls[j] in ls;
      var p := ls[j].path;
      assert ([key] + p)[1..] == p;
      assert DotJoin([key] + p) == key + "." + DotJoin(p);
      assert prefix + key + "." + DotJoin(p) == prefix + (key + "." + DotJoin(p));
    }
  }

  /** `parse_var` yields exactly one variable per leaf, in the leaves' order,
      named by the prefix followed by the leaf's keys joined with '.', and
      holding `str` of the leaf. */
  lemma {:induction false} FlattenLeaves(prefix: string, es: seq<Entry>, show: YValue -> string)
    ensures VariablesOfLeaves(prefix, FlattenVars(prefix, es, show), Leaves(es), show)
    decreases es
  {
    if es != [] {
      var n := |es| - 1;
      var e := es[n];
      FlattenLeaves(prefix, es[..n], show);
      match e.value {
        case YMap(inner) =>
          FlattenLeaves(prefix + e.key + ".", inner, show);
          VariablesOfLeavesUnder(prefix, e.key, FlattenVars(prefix + e.key + ".", inner, show), Leaves(inner), show);
          VariablesOfLeavesConcat(prefix, FlattenVars(prefix, es[..n], show), Leaves(es[..n]),
                                  FlattenVars(prefix + e.key + ".", inner, show), Under(e.key, Leaves(inner)), show);
        case _ =>
          VariablesOfLeavesConcat(prefix, FlattenVars(prefix, es[..n], show), Leaves(es[..n]),
                                  [Variable(prefix + e.key, Str(e.value, show))], [Leaf([e.key], e.value)], show);
      }
    }
  }

  /** Flattening keeps the order of the keys. */
  lemma {:induction false} FlattenConcat(prefix: string, a: seq<Entry>, b: seq<Entry>, show: YValue -> string)
    ensures FlattenVars(prefix, a + b, show) == FlattenVars(prefix, a, show) + FlattenVars(prefix, b, show)
    decreases |b|
  {
    if b == [] {
      assert a + b == a;
    } else {
      var n := |b| - 1;
      var ab := a + b;
      assert ab[..|ab| - 1] == a + b[..n] && ab[|ab| - 1] == b[n];
      FlattenConcat(prefix, a, b[..n], show);
      var p, q, r := FlattenVars(prefix, a, show), FlattenVars(prefix, b[..n], show), FlattenEntry(prefix, b[n], show);
      assert (p + q) + r == p + (q + r);
    }
  }

  lemma FlattenStep(prefix: string, es: seq<Entry>, i: nat, show: YValue -> string)
    requires i < |es|
    ensures FlattenVars(prefix, es[..i + 1], show) == FlattenVars(prefix, es[..i], show) + FlattenEntry(prefix, es[i], show)
  {
    assert es[..i + 1][..i] == es[..i];
  }

  /** `parse_var`: appends the flattened variables of `map` to the block. */
  method ParseVar(block: UnitBlock, curName: string, mapping: seq<Entry>, show: YValue -> string)
    modifies block
    decreases mapping
    ensures block.variables == old(block.variables) + FlattenVars(curName, mapping, show)
    ensures block.name == old(block.name) && block.atomicUnits == old(block.atomicUnits)
    ensures block.comments == old(block.comments) && block.dependencies == old(block.dependencies)
  {
    var i := 0;
    while i < |mapping|
      invariant 0 <= i <= |mapping|
      invariant block.variables == old(block.variables) + FlattenVars(curName, mapping[..i], show)
      invariant block.name == old(block.name) && block.atomicUnits == old(block.atomicUnits)
      invariant block.comments == old(block.comments) && block.dependencies == old(block.dependencies)
    {
      var e := mapping[i];
      FlattenStep(curName, mapping, i, show);
      ghost var before := block.variables;
      match e.value {
        case YMap(inner) =>
          ParseVar(block, curName + e.key + ".", inner, show);
        case _ =>
          block.variables := block.variables + [Variable(curName + e.key, Str(e.value, show))];
      }
      assert block.variables == before + FlattenEntry(curName, e, show);
      i := i + 1;
    }
    assert mapping[..i] == mapping;
  }

  /** `__parse_vars`: None gives an empty block, a mapping is flattened, and
      anything else has no `items`. */
  method ParseVars(name: string, file: YValue, show: YValue -> string) returns (ok: bool, block: UnitBlock)
    ensures fresh(block) && block.name == name
    ensures block.atomicUnits == [] && block.comments == [] && block.dependencies == []
    ensures ok <==> file.YNull? || file.YMap?
    ensures ok && file.YNull? ==> block.variables == []
    ensures ok && file.YMap? ==> block.variables == FlattenVars("", file.entries, show)
  {
    block := new UnitBlock(name);
    match file {
      case YNull =>
        ok := true;
      case YMap(es) =>
        ParseVar(block, "", es, show);
        ok := true;
      case _ =>
        ok := false;
    }
  }
}
