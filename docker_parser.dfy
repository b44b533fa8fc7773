/** The rules of DockerParser (glitch/parsers/docker_parser.py) that turn the
    instruction records of a Dockerfile into intermediate-representation
    records. The records themselves come from the `dockerfile_parse`
    library, which is not part of this model: they are inputs here. */
module DockerParser {
  import opened Wrappers
  import opened Text
  import opened Dicts
  import opened DockerIR
  import ShellCommands

  /** One instruction of a Dockerfile as the structure parser reports it. */
  datatype DFPStructure = DFPStructure(content: string, endline: int, instruction: string,
                                       startline: int, value: string)

  // ---------------------------------------------------------------------------
  // Downloaded file names
  // ---------------------------------------------------------------------------

  /** The extensions of files a download may fetch. The two dotted entries can
      never match, since only the text after the last `.` is compared. */
  const FileExtensions: seq<string> :=
    ["iso", "tar", "tar.gz", "tar.bzip2", "zip", "rar", "gzip", "gzip2", "deb", "rpm", "sh", "run", "bin"]

  /** `__get_atomic_file_name`: the file a unit's name refers to, when the
      extension of its last path segment is a known one. */
  function AtomicFileName(name: string): Option<string>
  {
    var fileName := Last(Split(name, '/'));
    if Last(Split(fileName, '.')) !in FileExtensions then None else Some(fileName)
  }

  /** A file name found is the text after the last `/`, and the text after
      its last `.` is a known extension. */
  lemma AtomicFileNameShape(name: string)
    ensures var r := AtomicFileName(name);
            r.Some? ==> IsLastSegment(name, '/', r.value) && Last(Split(r.value, '.')) in FileExtensions
  {
    LastSplitSegment(name, '/');
  }

  /** The file name is the text after the last `/`, kept exactly when the text
      after its last `.` is a known extension. */
  lemma AtomicFileNameSpec(name: string, file: string, ext: string)
    requires IsLastSegment(name, '/', file) && IsLastSegment(file, '.', ext)
    ensures AtomicFileName(name) == if ext in FileExtensions then Some(file) else None
  {
    LastSplitSegment(name, '/');
    LastSegmentUnique(name, '/', file, Last(Split(name, '/')));
    LastSplitSegment(file, '.');
    LastSegmentUnique(file, '.', ext, Last(Split(file, '.')));
  }

  /** A `.tar.gz` archive is not recognised: only `gz` is compared. */
  lemma TarGzNotRecognised()
    ensures AtomicFileName("a.tar.gz") == None
  {
    var name := "a.tar.gz";
    assert name[6..] == "gz" && name[5] == '.';
    assert '/' !in name && '.' !in "gz";
    assert IsLastSegment(name, '/', name);
    assert IsLastSegment(name, '.', "gz");
    assert "gz" !in FileExtensions;
    AtomicFileNameSpec(name, name, "gz");
  }

  /** `__is_download`: the type is in the one-element list `["wget"]`. */
  predicate IsDownload(a: AtomicUnit)
  {
    a.unitType == "wget"
  }

  // ---------------------------------------------------------------------------
  // The default user
  // ---------------------------------------------------------------------------

  predicate IsUser(e: DFPStructure)
  {
    e.instruction == "USER"
  }

  predicate IsFrom(e: DFPStructure)
  {
    e.instruction == "FROM"
  }

  predicate HasUser(s: seq<DFPStructure>)
  {
    exists k :: 0 <= k < |s| && IsUser(s[k])
  }

  /** The record inserted when a stage names no user. */
  function UserTag(line: int): DFPStructure
  {
    DFPStructure("USER root", line, "USER", line, "root")
  }

  /** The position of the first FROM, or -1 when there is none. */
  function FirstFrom(s: seq<DFPStructure>): (i: int)
    ensures -1 <= i < |s|
    ensures i >= 0 ==> IsFrom(s[i]) && forall k :: 0 <= k < i ==> !IsFrom(s[k])
    ensures i == -1 <==> forall k :: 0 <= k < |s| ==> !IsFrom(s[k])
  {
    if s == [] then -1
    else if IsFrom(s[0]) then 0
    else
      var j := FirstFrom(s[1..]);
      assert forall k :: 0 < k < |s| ==> s[k] == s[1..][k - 1];
      if j == -1 then -1 else j + 1
  }

  /** The structure after `__add_user_tag`. */
  function WithUserTag(s: seq<DFPStructure>): seq<DFPStructure>
  {
    if HasUser(s) then s
    else
      var i := FirstFrom(s);
      s[..i + 1] + [UserTag(StartLineAt(s, i))] + s[i + 1..]
  }

  /** Without a USER instruction, exactly one `USER root` record is inserted,
      right after the first FROM (first of all when there is none) and
      carrying that FROM's start line; every other record keeps its order. */
  lemma WithUserTagSpec(s: seq<DFPStructure>)
    ensures HasUser(s) ==> WithUserTag(s) == s
    ensures !HasUser(s) ==>
              var r, p := WithUserTag(s), FirstFrom(s) + 1;
              |r| == |s| + 1 && r[p] == UserTag(StartLineAt(s, p - 1)) &&
              (p == 0 || IsFrom(r[p - 1])) && (forall k :: 0 <= k < p - 1 ==> !IsFrom(r[k])) &&
              ShellCommands.RemoveAt(r, p) == s
  {
    if !HasUser(s) {
      var p := FirstFrom(s) + 1;
      ShellCommands.RemoveInserted(s, p, UserTag(StartLineAt(s, p - 1)));
    }
  }

  /** Inserting a USER record among records that are not USER records leaves it the only one. */
  lemma InsertOneUser(a: seq<DFPStructure>, t: DFPStructure, b: seq<DFPStructure>, r: seq<DFPStructure>)
    requires !HasUser(a) && !HasUser(b) && IsUser(t) && r == a + [t] + b
    ensures Filter(IsUser, r) == [t]
  {
    FilterConcat(IsUser, a + [t], b);
    FilterConcat(IsUser, a, [t]);
    assert Filter(IsUser, [t]) == [t] by {
      assert [t][..0] == [];
    }
    FilterEmpty(IsUser, a);
    FilterEmpty(IsUser, b);
  }

  /** After the insertion the inserted record is the only USER record. */
  lemma WithUserTagOneUser(s: seq<DFPStructure>)
    requires !HasUser(s)
    ensures Filter(IsUser, WithUserTag(s)) == [UserTag(StartLineAt(s, FirstFrom(s)))]
  {
    var p := FirstFrom(s) + 1;
    var t := UserTag(StartLineAt(s, FirstFrom(s)));
    WithUserTagInserted(s);
    NoUserSlices(s, p);
    InsertOneUser(s[..p], t, s[p..], WithUserTag(s));
  }

  lemma WithUserTagInserted(s: seq<DFPStructure>)
    requires !HasUser(s)
    ensures var p := FirstFrom(s) + 1;
            WithUserTag(s) == s[..p] + [UserTag(StartLineAt(s, p - 1))] + s[p..]
  {
  }

  lemma NoUserSlices(s: seq<DFPStructure>, p: nat)
    requires !HasUser(s) && p <= |s|
    ensures !HasUser(s[..p]) && !HasUser(s[p..])
  {
    forall k | 0 <= k < p ensures !IsUser(s[..p][k]) {
      assert s[..p][k] == s[k];
    }
    forall k | 0 <= k < |s| - p ensures !IsUser(s[p..][k]) {
      assert s[p..][k] == s[p + k];
    }
  }

  /** The start line of the record at `i`, or -1 outside the structure. */
  function StartLineAt(s: seq<DFPStructure>, i: int): int
  {
    if 0 <= i < |s| then s[i].startline else -1
  }

  /** `__add_user_tag`, applied to a copy: the list is a value here. */
  method AddUserTag(structure: seq<DFPStructure>) returns (r: seq<DFPStructure>)
    ensures r == WithUserTag(structure)
  {
    var users := Filter(IsUser, structure);
    FilterEmpty(IsUser, structure);
    if |users| > 0 {
      return structure;
    }
    var index, line := -1, -1;
    var i := 0;
    while i < |structure|
      invariant 0 <= i <= |structure|
      invariant index == -1 ==> line == -1 && forall k :: 0 <= k < i ==> !IsFrom(structure[k])
      invariant index != -1 ==> index == FirstFrom(structure) && line == StartLineAt(structure, index)
    {
      if IsFrom(structure[i]) {
        index := i;
        line := structure[i].startline;
        break;
      }
      i := i + 1;
    }
    r := structure[..index + 1] + [UserTag(line)] + structure[index + 1..];
  }

  // ---------------------------------------------------------------------------
  // Stages of a multi-stage Dockerfile
  // ---------------------------------------------------------------------------

  /** Stage positions lie inside the structure and strictly increase, as the
      positions of the FROM records do. */
  predicate ValidStageIndexes(idx: seq<nat>, n: nat)
  {
    (forall i :: 0 <= i < |idx| ==> idx[i] < n) &&
    (forall i :: 0 < i < |idx| ==> StepsUp(idx, i))
  }

  /** Position `i` follows position `i - 1`. */
  predicate StepsUp(idx: seq<nat>, i: nat)
    requires 0 < i < |idx|
  {
    idx[i - 1] < idx[i]
  }

  /** The first record of stage `i`: the first stage also takes what precedes its FROM. */
  function StageStart(idx: seq<nat>, i: nat): nat
    requires i < |idx|
  {
    if i == 0 then 0 else idx[i]
  }

  /** One past the last record of stage `i`. */
  function StageEnd(idx: seq<nat>, n: nat, i: nat): (e: nat)
    requires ValidStageIndexes(idx, n) && i < |idx|
    ensures StageStart(idx, i) <= e <= n
  {
    if i == |idx| - 1 then n else assert StepsUp(idx, i + 1); idx[i + 1]
  }

  /** The image a stage's FROM names: its first word. */
  function StageImage(structure: seq<DFPStructure>, idx: seq<nat>, i: nat): string
    requires ValidStageIndexes(idx, |structure|) && i < |idx|
  {
    Split(structure[idx[i]].value, ' ')[0]
  }

  function StageSlice(structure: seq<DFPStructure>, idx: seq<nat>, i: nat): (r: seq<DFPStructure>)
    requires ValidStageIndexes(idx, |structure|) && i < |idx|
  {
    structure[StageStart(idx, i)..StageEnd(idx, |structure|, i)]
  }

  /** The records of stage `i`: its range, with the default user added. */
  function StageRecords(structure: seq<DFPStructure>, idx: seq<nat>, i: nat): seq<DFPStructure>
    requires ValidStageIndexes(idx, |structure|) && i < |idx|
  {
    WithUserTag(StageSlice(structure, idx, i))
  }

  /** The (image, records) pair `__get_stages` assigns for each stage, in order. */
  function StagePairs(structure: seq<DFPStructure>, idx: seq<nat>): (kvs: seq<(string, seq<DFPStructure>)>)
    requires ValidStageIndexes(idx, |structure|)
    ensures |kvs| == |idx|
  {
    seq(|idx|, i requires 0 <= i < |idx| => (StageImage(structure, idx, i), StageRecords(structure, idx, i)))
  }

  lemma StagePairAt(structure: seq<DFPStructure>, idx: seq<nat>, i: nat)
    requires ValidStageIndexes(idx, |structure|) && i < |idx|
    ensures StagePairs(structure, idx)[i] == (StageImage(structure, idx, i), StageRecords(structure, idx, i))
  {
  }

  /** `__get_stages` with `__get_stage_structure`. */
  method GetStages(idx: seq<nat>, structure: seq<DFPStructure>) returns (stages: Dict<seq<DFPStructure>>)
    requires ValidStageIndexes(idx, |structure|)
    ensures stages == PutAll([], StagePairs(structure, idx))
  {
    ghost var pairs := StagePairs(structure, idx);
    stages := [];
    var i := 0;
    while i < |idx|
      invariant 0 <= i <= |idx|
      invariant stages == PutAll([], pairs[..i])
    {
      var stageImage := Split(structure[idx[i]].value, ' ')[0];
      var stageStart := if i != 0 then idx[i] else 0;
      var stageEnd := if i == |idx| - 1 then |structure| else idx[i + 1];
      assert stageStart == StageStart(idx, i) && stageEnd == StageEnd(idx, |structure|, i);
      var sub := AddUserTag(structure[stageStart..stageEnd]);
      assert structure[stageStart..stageEnd] == StageSlice(structure, idx, i);
      StagePairAt(structure, idx, i);
      PutAllStep([], pairs, i);
      stages := Put(stages, stageImage, sub);
      i := i + 1;
    }
    assert pairs[..|idx|] == pairs;
  }

  /** An image names a stage exactly when some FROM names it. */
  lemma StagesKeys(structure: seq<DFPStructure>, idx: seq<nat>, image: string)
    requires ValidStageIndexes(idx, |structure|)
    ensures Lookup(PutAll([], StagePairs(structure, idx)), image).Some? <==>
            exists i :: 0 <= i < |idx| && StageImage(structure, idx, i) == image
  {
    var pairs := StagePairs(structure, idx);
    PutAllKeys(pairs, image);
    assert forall i :: 0 <= i < |idx| ==> pairs[i].0 == StageImage(structure, idx, i);
  }

  /** When several stages use the same image, the last one wins; its records
      are its range of the structure with the default user added. */
  lemma StagesLastWins(structure: seq<DFPStructure>, idx: seq<nat>, i: nat)
    requires ValidStageIndexes(idx, |structure|) && i < |idx|
    requires forall j :: i < j < |idx| ==> StageImage(structure, idx, j) != StageImage(structure, idx, i)
    ensures Lookup(PutAll([], StagePairs(structure, idx)), StageImage(structure, idx, i)) ==
            Some(StageRecords(structure, idx, i))
  {
    var pairs := StagePairs(structure, idx);
    assert forall j :: 0 <= j < |idx| ==> pairs[j].0 == StageImage(structure, idx, j);
    PutAllLastWins([], pairs, i);
  }

  /** The ranges of the first `m` stages, one after the other. */
  function StageRanges(structure: seq<DFPStructure>, idx: seq<nat>, m: nat): seq<DFPStructure>
    requires ValidStageIndexes(idx, |structure|) && m <= |idx|
  {
    if m == 0 then [] else StageRanges(structure, idx, m - 1) + StageSlice(structure, idx, m - 1)
  }

  /** The stage ranges abut: together, in order, they are a prefix of the structure. */
  lemma {:induction false} StageRangesPrefix(structure: seq<DFPStructure>, idx: seq<nat>, m: nat)
    requires ValidStageIndexes(idx, |structure|) && 0 < m <= |idx|
    ensures StageRanges(structure, idx, m) == structure[..StageEnd(idx, |structure|, m - 1)]
  {
    if m > 1 {
      StageRangesPrefix(structure, idx, m - 1);
      assert StageEnd(idx, |structure|, m - 2) == StageStart(idx, m - 1);
    }
  }

  /** Every record belongs to exactly one stage: the ranges cover the whole structure. */
  lemma StagesCover(structure: seq<DFPStructure>, idx: seq<nat>)
    requires ValidStageIndexes(idx, |structure|) && |idx| > 0
    ensures StageRanges(structure, idx, |idx|) == structure
  {
    StageRangesPrefix(structure, idx, |idx|);
  }

  // ---------------------------------------------------------------------------
  // Variables
  // ---------------------------------------------------------------------------

  /** The separator of an ENV instruction: `=` when present, else a space. */
  function EnvSeparator(value: string): char
  {
    if '=' in value then '=' else ' '
  }

  /** The ARG branch: the name is the text before the first comma; the value
      is the text after it when there is exactly one comma and something
      follows it, otherwise the word `ARG`. */
  function ArgVariable(value: string, line: int): (v: Variable)
    ensures v.hasVariable && v.line == line && IsFirstSegment(value, ',', v.name)
    ensures (Count(',', value) == 1 && v.value != "" && IsLastSegment(value, ',', v.value)) ||
            (v.value == "ARG" && (Count(',', value) != 1 || (|value| > 0 && Last(value) == ',')))
  {
    var parts := Split(value, ',');
    FirstSplitSegment(value, ',');
    LastSplitSegment(value, ',');
    SplitLength(value, ',');
    var default := if |parts| == 2 then parts[1] else "";
    if |parts| == 2 then ArgDefault(value, parts); Variable(parts[0], if default != "" then default else "ARG", true, line)
    else Variable(parts[0], if default != "" then default else "ARG", true, line)
  }

  /** A `name<sep>value` pair: exactly one separator, else an error. */
  function SplitPair(value: string, sep: char): (r: Result<(string, string)>)
    ensures r.Ok? <==> Count(sep, value) == 1
    ensures r.Ok? ==> r.value.0 + [sep] + r.value.1 == value && sep !in r.value.0 && sep !in r.value.1
  {
    var parts := Split(value, sep);
    SplitLength(value, sep);
    if |parts| != 2 then Err("ValueError")
    else
      SplitTwo(value, sep);
      Ok((parts[0], parts[1]))
  }

  /** `__create_variable_block`; an `Err` is the exception the source raises
      (a failed assertion for ENV, a failed unpacking for LABEL). */
  function CreateVariableBlock(e: DFPStructure): (r: Result<Variable>)
    ensures r.Ok? ==> r.value.line == e.startline + 1
    ensures e.instruction == "USER" ==> r == Ok(Variable("user", e.value, false, e.startline + 1))
    ensures e.instruction == "ARG" ==>
              r.Ok? && r.value.hasVariable && IsFirstSegment(e.value, ',', r.value.name) &&
              ((Count(',', e.value) == 1 && r.value.value != "" && IsLastSegment(e.value, ',', r.value.value)) ||
               (r.value.value == "ARG" && (Count(',', e.value) != 1 || (|e.value| > 0 && Last(e.value) == ','))))
    ensures e.instruction == "ENV" ==>
              var sep := EnvSeparator(e.value);
              (r.Ok? <==> Count(sep, e.value) == 1) &&
              (r.Ok? ==> r.value.name + [sep] + r.value.value == e.value && sep !in r.value.name &&
                         (r.value.hasVariable <==> '$' in r.value.value))
    ensures e.instruction !in ["USER", "ARG", "ENV"] ==>
              (r.Ok? <==> Count('=', e.value) == 1) &&
              (r.Ok? ==> r.value.name + "=" + r.value.value == e.value && '=' !in r.value.name &&
                         !r.value.hasVariable)
  {
    var line := e.startline + 1;
    if e.instruction == "USER" then Ok(Variable("user", e.value, false, line))
    else if e.instruction == "ARG" then Ok(ArgVariable(e.value, line))
    else if e.instruction == "ENV" then
      match SplitPair(e.value, EnvSeparator(e.value))
      case Err(_) => Err("AssertionError")
      case Ok((name, value)) => Ok(Variable(name, value, '$' in value, line))
    else
      match SplitPair(e.value, '=')
      case Err(msg) => Err(msg)
      case Ok((name, value)) => Ok(Variable(name, value, false, line))
  }

  /** With exactly two comma pieces, the second one is empty exactly when the value ends in a comma. */
  lemma ArgDefault(value: string, parts: seq<string>)
    requires parts == Split(value, ',') && |parts| == 2
    ensures parts[1] == "" <==> |value| > 0 && Last(value) == ','
  {
    SplitTwo(value, ',');
    assert value == parts[0] + [','] + parts[1];
  }
}
