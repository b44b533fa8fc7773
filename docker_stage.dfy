/** `__parse_instruction`, `__merge_download_commands` and `__parse_stage` of
    glitch/parsers/docker_parser.py: the instructions of one stage, in
    order, fill a unit block, whose downloads are then merged. */
module DockerStage {
  import opened Wrappers
  import opened Text
  import opened DockerIR
  import opened DockerParser
  import opened DownloadMerge
  import ShellCommands

  /** The library calls the parser makes, given to it as functions:
      `ast.literal_eval` of an exec-form command (`["sh", "-c", ...]`)
      together with the `" ".join` of its items, `bashlex.split`, and the
      first record `dockerfile_parse` finds in a text (None when it finds
      none, where the source raises IndexError). The first two give `Err`
      with the exception they raise: a malformed literal (SyntaxError,
      ValueError), an item that is not a string (TypeError), a shell text
      bashlex cannot split, such as one with an unbalanced quote. */
  datatype Externals = Externals(literalEval: string -> Result<seq<string>>,
                                 shellSplit: string -> Result<seq<string>>,
                                 reparse: string -> Option<DFPStructure>)

  /** The value of a re-parsed ONBUILD body is shorter than the body, since
      it lacks the instruction word. */
  ghost predicate ValidExternals(ext: Externals)
  {
    forall v :: ext.reparse(v).Some? ==> |ext.reparse(v).value.value| < |v|
  }

  /** `CommandParser.__init__` and the `bashlex.split` of
      `__get_sub_commands`: an exec-form list is joined with spaces, then
      the text is split into shell words; either library call may raise. */
  function CommandTokens(value: string, ext: Externals): Result<seq<string>>
  {
    if StartsWith(value, "[") then
      match ext.literalEval(value)
      case Err(msg) => Err(msg)
      case Ok(items) => ext.shellSplit(JoinAll(items, ' '))
    else
      ext.shellSplit(value)
  }

  /** What one instruction adds to a unit block. */
  datatype Effect = Effect(units: seq<AtomicUnit>, variables: seq<Variable>, comments: seq<Comment>)

  const NoEffect := Effect([], [], [])

  function Combine(a: Effect, b: Effect): Effect
  {
    Effect(a.units + b.units, a.variables + b.variables, a.comments + b.comments)
  }

  /** Units with their line set to `line`. */
  function WithLine(aus: seq<AtomicUnit>, line: int): (r: seq<AtomicUnit>)
    ensures |r| == |aus|
    ensures forall k :: 0 <= k < |r| ==> r[k] == aus[k].(line := line)
  {
    seq(|aus|, k requires 0 <= k < |aus| => aus[k].(line := line))
  }

  /** A COPY word that is not a `--flag`. */
  predicate IsCopyOperand(w: string)
  {
    !StartsWith(w, "--")
  }

  function CopyOperands(value: string): seq<string>
  {
    Filter(IsCopyOperand, Split(value, ' '))
  }

  const VariableInstructions: seq<string> := ["ENV", "USER", "ARG", "LABEL"]
  const CommandInstructions: seq<string> := ["RUN", "CMD", "ENTRYPOINT"]
  const IgnoredInstructions: seq<string> := ["ADD", "VOLUME", "WORKDIR", "STOPSIGNAL", "HEALTHCHECK", "SHELL", "EXPOSE"]

  /** The units a RUN, CMD or ENTRYPOINT instruction yields, or the
      exception the library calls raise. */
  function CommandEffect(e: DFPStructure, ext: Externals): (r: Result<Effect>)
    ensures r.Ok? <==> CommandTokens(e.value, ext).Ok?
    ensures r.Ok? ==> r.value.variables == [] && r.value.comments == [] &&
                      |r.value.units| <= |ShellCommands.Separators(CommandTokens(e.value, ext).value)| + 1 &&
                      forall k :: 0 <= k < |r.value.units| ==> r.value.units[k].line == e.startline
  {
    match CommandTokens(e.value, ext)
    case Err(msg) => Err(msg)
    case Ok(tokens) =>
      ShellCommands.CommandUnitsBound(tokens);
      Ok(Effect(WithLine(ShellCommands.CommandUnits(tokens), e.startline), [], []))
  }

  /** The unit a COPY instruction yields, when it has exactly two operands. */
  function CopyEffect(e: DFPStructure): (r: Result<Effect>)
    ensures r.Ok? <==> |CopyOperands(e.value)| == 2
    ensures r.Ok? ==> |r.value.units| == 1 && r.value.variables == [] && r.value.comments == [] &&
                      r.value.units[0].unitType == "copy" &&
                      r.value.units[0].attributes == [Attribute("src", Str(CopyOperands(e.value)[0]), false),
                                                      Attribute("dest", Str(CopyOperands(e.value)[1]), false)]
  {
    var operands := CopyOperands(e.value);
    if |operands| != 2 then Err("ValueError")
    else
      var attrs := [Attribute("src", Str(operands[0]), false), Attribute("dest", Str(operands[1]), false)];
      Ok(Effect([NewUnit("", "copy").(attributes := attrs)], [], []))
  }

  /** The instruction words the branches of `__parse_instruction` test are
      distinct. */
  lemma InstructionKinds(i: string)
    ensures i in IgnoredInstructions ==>
              i !in VariableInstructions && i != "FROM" && i != "COMMENT" && i !in CommandInstructions &&
              i != "ONBUILD" && i != "COPY"
    ensures i in CommandInstructions ==> i !in VariableInstructions && i != "FROM" && i != "COMMENT"
    ensures i == "FROM" ==> i !in VariableInstructions
  {
  }

  /** What `__parse_instruction` adds for one record; an `Err` is the
      exception it raises. ONBUILD applies the rule to its re-parsed body. */
  function InstructionEffect(e: DFPStructure, ext: Externals): (r: Result<Effect>)
    requires ValidExternals(ext)
    decreases |e.value|
    ensures r.Err? ==> e.instruction in ["ENV", "LABEL", "COPY", "ONBUILD", "RUN", "CMD", "ENTRYPOINT"]
    ensures e.instruction in CommandInstructions ==> (r.Ok? <==> CommandTokens(e.value, ext).Ok?)
    ensures e.instruction in IgnoredInstructions ==> r == Ok(NoEffect)
    ensures e.instruction in VariableInstructions ==>
              (r.Ok? <==> CreateVariableBlock(e).Ok?) &&
              (r.Ok? ==> r.value == Effect([], [CreateVariableBlock(e).value], []))
    ensures e.instruction == "FROM" ==>
              r.Ok? && |r.value.units| == 1 && r.value.units[0].unitType == "image" &&
              IsFirstSegment(e.value, ' ', r.value.units[0].name) && r.value.units[0].line == e.startline + 1
  {
    var instruction := e.instruction;
    InstructionKinds(instruction);
    if instruction in VariableInstructions then
      match CreateVariableBlock(e)
      case Err(msg) => Err(msg)
      case Ok(v) => Ok(Effect([], [v], []))
    else if instruction == "FROM" then
      FirstSplitSegment(e.value, ' ');
      Ok(Effect([NewUnit(Split(e.value, ' ')[0], "image").(line := e.startline + 1)], [], []))
    else if instruction == "COMMENT" then
      Ok(Effect([], [], [Comment(e.value, e.startline + 1)]))
    else if instruction in CommandInstructions then
      CommandEffect(e, ext)
    else if instruction == "ONBUILD" then
      match ext.reparse(e.value)
      case None => Err("IndexError")
      case Some(inner) => InstructionEffect(inner, ext)
    else if instruction == "COPY" then
      CopyEffect(e)
    else
      Ok(NoEffect)
  }

  /** What the first records of a stage add, or the first exception. */
  function StageEffect(structure: seq<DFPStructure>, ext: Externals): Result<Effect>
    requires ValidExternals(ext)
  {
    if structure == [] then Ok(NoEffect)
    else
      match StageEffect(structure[..|structure| - 1], ext)
      case Err(msg) => Err(msg)
      case Ok(acc) =>
        match InstructionEffect(Last(structure), ext)
        case Err(msg) => Err(msg)
        case Ok(eff) => Ok(Combine(acc, eff))
  }

  /** An exception in some record stops the whole stage. */
  lemma {:induction false} StageEffectErr(structure: seq<DFPStructure>, ext: Externals, n: nat)
    requires ValidExternals(ext) && n <= |structure|
    requires StageEffect(structure[..n], ext).Err?
    ensures StageEffect(structure, ext).Err?
    decreases |structure|
  {
    if n < |structure| {
      assert structure[..|structure| - 1][..n] == structure[..n];
      StageEffectErr(structure[..|structure| - 1], ext, n);
    } else {
      assert structure[..n] == structure;
    }
  }

  /** A unit block of the intermediate representation, as far as the
      Dockerfile parser fills it. */
  class UnitBlock {
    var name: string
    var atomicUnits: seq<AtomicUnit>
    var variables: seq<Variable>
    var comments: seq<Comment>

    constructor (name: string)
      ensures this.name == name && atomicUnits == [] && variables == [] && comments == []
    {
      this.name := name;
      atomicUnits := [];
      variables := [];
      comments := [];
    }

    /** `__parse_instruction`: `ok` is false when the source raises, and then
        the block is unchanged. */
    method ParseInstruction(e: DFPStructure, ext: Externals) returns (ok: bool)
      requires ValidExternals(ext)
      modifies this
      decreases |e.value|
      ensures ok <==> InstructionEffect(e, ext).Ok?
      ensures name == old(name)
      ensures ok ==> var eff := InstructionEffect(e, ext).value;
                     atomicUnits == old(atomicUnits) + eff.units &&
                     variables == old(variables) + eff.variables &&
                     comments == old(comments) + eff.comments
      ensures !ok ==> atomicUnits == old(atomicUnits) && variables == old(variables) && comments == old(comments)
    {
      var instruction := e.instruction;
      if instruction in VariableInstructions {
        var v := CreateVariableBlock(e);
        if v.Err? {
          return false;
        }
        assert InstructionEffect(e, ext) == Ok(Effect([], [v.value], []));
        variables := variables + [v.value];
      } else if instruction == "FROM" {
        var au := NewUnit(Split(e.value, ' ')[0], "image");
        au := au.(line := e.startline + 1);
        assert InstructionEffect(e, ext) == Ok(Effect([au], [], []));
        atomicUnits := atomicUnits + [au];
      } else if instruction == "COMMENT" {
        assert InstructionEffect(e, ext) == Ok(Effect([], [], [Comment(e.value, e.startline + 1)]));
        comments := comments + [Comment(e.value, e.startline + 1)];
      } else if instruction in CommandInstructions {
        var command := e.value;
        if StartsWith(command, "[") {
          var items := ext.literalEval(command);
          if items.Err? {
            return false;
          }
          command := JoinAll(items.value, ' ');
        }
        var tokens := ext.shellSplit(command);
        if tokens.Err? {
          return false;
        }
        assert tokens == CommandTokens(e.value, ext);
        var aus := ShellCommands.ParseCommand(tokens.value);
        ghost var parsed := aus;
        var k := 0;
        while k < |aus|
          invariant 0 <= k <= |aus| == |parsed|
          invariant forall i :: 0 <= i < k ==> aus[i] == parsed[i].(line := e.startline)
          invariant forall i :: k <= i < |aus| ==> aus[i] == parsed[i]
        {
          aus := aus[k := aus[k].(line := e.startline)];
          k := k + 1;
        }
        assert aus == WithLine(parsed, e.startline);
        assert InstructionEffect(e, ext) == Ok(Effect(aus, [], []));
        atomicUnits := atomicUnits + aus;
      } else if instruction == "ONBUILD" {
        var inner := ext.reparse(e.value);
        if inner.None? {
          return false;
        }
        ok := ParseInstruction(inner.value, ext);
        return;
      } else if instruction == "COPY" {
        var operands := Filter(IsCopyOperand, Split(e.value, ' '));
        if |operands| != 2 {
          return false;
        }
        var au := NewUnit("", "copy");
        au := au.(attributes := au.attributes + [Attribute("src", Str(operands[0]), false)]);
        au := au.(attributes := au.attributes + [Attribute("dest", Str(operands[1]), false)]);
        assert operands == CopyOperands(e.value);
        assert au.attributes == [Attribute("src", Str(operands[0]), false), Attribute("dest", Str(operands[1]), false)];
        assert InstructionEffect(e, ext) == Ok(Effect([au], [], []));
        atomicUnits := atomicUnits + [au];
      }
      ok := true;
    }

    /** `__merge_download_commands`: each download in turn absorbs the
        verification units of its file. */
    method MergeDownloadCommands()
      modifies this
      ensures atomicUnits == Merged(old(atomicUnits))
      ensures name == old(name) && variables == old(variables) && comments == old(comments)
    {
      atomicUnits := MergeAll(atomicUnits);
    }
  }

  /** The loop of `__merge_download_commands` over the download units. */
  method MergeAll(us: seq<AtomicUnit>) returns (units: seq<AtomicUnit>)
    ensures units == Merged(us)
  {
    units := us;
    var downloadCount := |Filter(IsDownload, units)|;
    var j := 0;
    while j < downloadCount
      invariant 0 <= j <= downloadCount == |Downloads(units)|
      invariant MergeFrom(units, j) == Merged(us)
    {
      var p := NthDownloadPos(units, j);
      MergeOneDownloads(units, p);
      units := MergeAt(units, p);
      j := j + 1;
    }
  }

  /** One round of the merge loop: the download at `p` takes its `url`,
      loses its name, and every verification unit of its file is removed
      and flagged on it. The source updates the download object in place;
      here its position among the remaining units is computed instead. */
  method MergeAt(units: seq<AtomicUnit>, p: nat) returns (r: seq<AtomicUnit>)
    requires p < |units| && IsDownload(units[p])
    ensures r == MergeOne(units, p)
  {
    var d := units[p];
    var file := AtomicFileName(d.name);
    var d' := d.(attributes := d.attributes + [Attribute("url", Str(d.name), false)], name := "");
    var kept, flags := FileManipulations(units, file);
    var keptBefore, _ := FileManipulations(units[..p], file);
    SplitAt(units, p);
    KeptAround(units[..p], d, units[p + 1..], file);
    UpdateMiddle(Kept(units[..p], file), d, d'.(attributes := d'.attributes + flags), Kept(units[p + 1..], file));
    r := kept[|keptBefore| := d'.(attributes := d'.attributes + flags)];
  }

  /** The inner loop of the merge: the units that stay and, in order, the
      flags of those removed. */
  method FileManipulations(units: seq<AtomicUnit>, file: Option<string>)
      returns (kept: seq<AtomicUnit>, flags: seq<Attribute>)
    ensures kept == Kept(units, file) && flags == Flags(units, file)
  {
    kept, flags := [], [];
    var k := 0;
    while k < |units|
      invariant 0 <= k <= |units|
      invariant kept == Kept(units[..k], file) && flags == Flags(units[..k], file)
    {
      var au := units[k];
      KeptFlagsSnoc(units, k, file);
      if AtomicFileName(au.name) == file && IsVerification(au) {
        flags := flags + [Attribute(au.unitType, Str("true"), false)];
      } else {
        kept := kept + [au];
      }
      k := k + 1;
    }
    assert units[..|units|] == units;
  }

  /** `__parse_stage`: a fresh block named `name` holding what the records
      add, with downloads merged; `ok` is false when a record raises. */
  method ParseStage(name: string, structure: seq<DFPStructure>, ext: Externals) returns (ok: bool, u: UnitBlock)
    requires ValidExternals(ext)
    ensures fresh(u) && u.name == name
    ensures ok <==> StageEffect(structure, ext).Ok?
    ensures ok ==> var eff := StageEffect(structure, ext).value;
                   u.atomicUnits == Merged(eff.units) && u.variables == eff.variables && u.comments == eff.comments
  {
    u := new UnitBlock(name);
    var i := 0;
    while i < |structure|
      invariant 0 <= i <= |structure|
      invariant fresh(u) && u.name == name
      invariant StageEffect(structure[..i], ext) == Ok(Effect(u.atomicUnits, u.variables, u.comments))
    {
      assert structure[..i + 1][..i] == structure[..i];
      ok := u.ParseInstruction(structure[i], ext);
      if !ok {
        StageEffectErr(structure, ext, i + 1);
        return;
      }
      i := i + 1;
    }
    assert structure[..|structure|] == structure;
    u.MergeDownloadCommands();
    ok := true;
  }
}
