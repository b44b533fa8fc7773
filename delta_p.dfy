/** The Delta-P language of glitch/repair/interactive, as far as the repair
    scenario of glitch/tests/repair/interactive/test_patch_solver.py uses it:
    statements that bind string constants to tagged names and create,
    chmod and chown files, an evaluator over a file-system state, and the
    repair predicate with its cost. glitch/repair/interactive/delta_p.py and
    solver.py are not part of this model: the evaluator does what the
    scenario exercises and nothing more. */
module DeltaP {
  import opened Wrappers

  datatype PConst = PStr(s: string)

  datatype PExpr = PEConst(c: PConst) | PEVar(id: string)

  datatype PStatement =
    | PSkip
    | PSeq(lhs: PStatement, rhs: PStatement)
    | PLet(id: string, expr: PExpr, tag: int, body: PStatement)
    | PCreate(path: PExpr, content: PExpr)
    | PChmod(path: PExpr, mode: PExpr)
    | PChown(path: PExpr, owner: PExpr)

  /** A path's state: absent, or a file whose attributes may be unset. */
  datatype State =
    | Nil
    | File(mode: Option<string>, owner: Option<string>, content: Option<string>)

  /** `FileSystemState.state`: the state of each path. */
  type FileSystem = map<string, State>

  /** A repair: new values for some of the tagged bindings. A tag the
      map does not hold keeps its own expression. */
  type Assignment = map<int, string>

  const UnboundError := "NameError"
  const NoFileError := "FileNotFoundError"

  function EvalExpr(e: PExpr, env: map<string, string>): (r: Result<string>)
    ensures r.Ok? <==> e.PEConst? || e.id in env
    ensures r.Err? ==> r.error == UnboundError
  {
    match e
    case PEConst(PStr(s)) => Ok(s)
    case PEVar(id) => if id in env then Ok(env[id]) else Err(UnboundError)
  }

  /** The value a binding takes under an assignment. */
  function BindingValue(e: PExpr, tag: int, env: map<string, string>, vals: Assignment): Result<string>
  {
    if tag in vals then Ok(vals[tag]) else EvalExpr(e, env)
  }

  /** Runs a statement from left to right; a later write to a path replaces
      what an earlier one left there. */
  function Eval(s: PStatement, env: map<string, string>, vals: Assignment, fs: FileSystem): Result<FileSystem>
  {
    match s
    case PSkip => Ok(fs)
    case PSeq(a, b) =>
      var r := Eval(a, env, vals, fs);
      if r.Err? then r else Eval(b, env, vals, r.value)
    case PLet(id, e, tag, body) =>
      var v := BindingValue(e, tag, env, vals);
      if v.Err? then Err(v.error) else Eval(body, env[id := v.value], vals, fs)
    case PCreate(p, c) =>
      var path := EvalExpr(p, env);
      var content := EvalExpr(c, env);
      if path.Err? then Err(path.error)
      else if content.Err? then Err(content.error)
      else Ok(fs[path.value := File(None, None, Some(content.value))])
    case PChmod(p, m) =>
      var path := EvalExpr(p, env);
      var mode := EvalExpr(m, env);
      if path.Err? then Err(path.error)
      else if mode.Err? then Err(mode.error)
      else if path.value !in fs || !fs[path.value].File? then Err(NoFileError)
      else Ok(fs[path.value := fs[path.value].(mode := Some(mode.value))])
    case PChown(p, o) =>
      var path := EvalExpr(p, env);
      var owner := EvalExpr(o, env);
      if path.Err? then Err(path.error)
      else if owner.Err? then Err(owner.error)
      else if path.value !in fs || !fs[path.value].File? then Err(NoFileError)
      else Ok(fs[path.value := fs[path.value].(owner := Some(owner.value))])
  }

  /** Every variable is bound by an enclosing `PLet` or by `scope`. */
  predicate ExprClosed(e: PExpr, scope: set<string>)
  {
    e.PEVar? ==> e.id in scope
  }

  predicate Closed(s: PStatement, scope: set<string>)
  {
    match s
    case PSkip => true
    case PSeq(a, b) => Closed(a, scope) && Closed(b, scope)
    case PLet(id, e, _, body) => ExprClosed(e, scope) && Closed(body, scope + {id})
    case PCreate(p, c) => ExprClosed(p, scope) && ExprClosed(c, scope)
    case PChmod(p, m) => ExprClosed(p, scope) && ExprClosed(m, scope)
    case PChown(p, o) => ExprClosed(p, scope) && ExprClosed(o, scope)
  }

  /** A closed statement never fails on a variable: its only failure is a
      chmod or chown of a path that holds no file. */
  lemma {:induction false} ClosedNeverUnbound(s: PStatement, env: map<string, string>, vals: Assignment, fs: FileSystem)
    requires Closed(s, env.Keys)
    ensures Eval(s, env, vals, fs).Err? ==> Eval(s, env, vals, fs).error == NoFileError
  {
    match s
    case PSkip =>
    case PSeq(a, b) =>
      ClosedNeverUnbound(a, env, vals, fs);
      var r := Eval(a, env, vals, fs);
      if r.Ok? {
        ClosedNeverUnbound(b, env, vals, r.value);
      }
    case PLet(id, e, tag, body) =>
      var v := BindingValue(e, tag, env, vals);
      if v.Ok? {
        assert env[id := v.value].Keys == env.Keys + {id};
        ClosedNeverUnbound(body, env[id := v.value], vals, fs);
      }
    case PCreate(_, _) =>
    case PChmod(_, _) =>
    case PChown(_, _) =>
  }

  /** A `PLet` of the statement: its name, expression and tag. */
  datatype Binding = Binding(id: string, expr: PExpr, tag: int)

  /** The bindings of a statement, outermost and leftmost first. */
  function Bindings(s: PStatement): seq<Binding>
  {
    match s
    case PSeq(a, b) => Bindings(a) + Bindings(b)
    case PLet(id, e, tag, body) => [Binding(id, e, tag)] + Bindings(body)
    case _ => []
  }

  /** A binding is unchanged when the assignment leaves it alone or gives it
      its own literal back. */
  predicate Unchanged(b: Binding, vals: Assignment)
  {
    b.tag !in vals || (b.expr.PEConst? && vals[b.tag] == b.expr.c.s)
  }

  /** The cost the solver maximises: the number of unchanged bindings. */
  function Cost(s: PStatement, vals: Assignment): (r: nat)
    ensures r <= |Bindings(s)|
  {
    UnchangedCount(Bindings(s), vals)
  }

  function UnchangedCount(bs: seq<Binding>, vals: Assignment): (r: nat)
    ensures r <= |bs|
    ensures r == |bs| <==> forall k :: 0 <= k < |bs| ==> Unchanged(bs[k], vals)
  {
    if bs == [] then 0
    else (if Unchanged(bs[0], vals) then 1 else 0) + UnchangedCount(bs[1..], vals)
  }

  /** Without overrides every binding is unchanged: keeping the program as it
      is has the largest cost there is. */
  lemma NoOverrideFullCost(s: PStatement)
    ensures Cost(s, map[]) == |Bindings(s)|
  {
    var bs := Bindings(s);
    assert forall k :: 0 <= k < |bs| ==> Unchanged(bs[k], map[]);
  }

  /** The value the first binding of a name takes, when it is a constant or
      overridden (`solver.vars[name]`). */
  function Solved(s: PStatement, vals: Assignment, id: string): (r: Option<string>)
    ensures r.Some? ==> exists k :: 0 <= k < |Bindings(s)| && Bindings(s)[k].id == id
  {
    SolvedIn(Bindings(s), vals, id)
  }

  function SolvedIn(bs: seq<Binding>, vals: Assignment, id: string): (r: Option<string>)
    ensures r.Some? ==> exists k :: 0 <= k < |bs| && bs[k].id == id
  {
    if bs == [] then None
    else if bs[0].id == id then
      if bs[0].tag in vals then Some(vals[bs[0].tag])
      else if bs[0].expr.PEConst? then Some(bs[0].expr.c.s)
      else None
    else
      var r := SolvedIn(bs[1..], vals, id);
      if r.Some? then
        var k :| 0 <= k < |bs[1..]| && bs[1..][k].id == id;
        assert bs[k + 1].id == id;
        r
      else r
  }

  /** A repair: running the statement from an empty file system succeeds and
      leaves every path of the target in the target's state. */
  predicate IsRepair(s: PStatement, target: FileSystem, vals: Assignment)
  {
    var r := Eval(s, map[], vals, map[]);
    r.Ok? && forall path :: path in target ==> path in r.value && r.value[path] == target[path]
  }

  /** The last write wins: after any statement, a create leaves exactly a
      fresh file with the new content at its path, and other paths as they
      were. */
  lemma CreateLast(a: PStatement, path: string, content: string, env: map<string, string>, vals: Assignment, fs: FileSystem)
    requires Eval(a, env, vals, fs).Ok?
    ensures var r := Eval(PSeq(a, PCreate(PEConst(PStr(path)), PEConst(PStr(content)))), env, vals, fs);
            r.Ok? && path in r.value && r.value[path] == File(None, None, Some(content)) &&
            forall q :: q != path ==> (q in r.value <==> q in Eval(a, env, vals, fs).value) &&
                                      (q in r.value ==> r.value[q] == Eval(a, env, vals, fs).value[q])
  {
  }
}
