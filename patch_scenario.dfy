/** The mode-mismatch repair of glitch/tests/repair/interactive/test_patch_solver.py:
    a program that creates a page, sets its mode to "0755" and its owner,
    against a target that wants mode "0777". The best repair changes the
    mode binding and nothing else. */
module PatchScenario {
  import opened Wrappers
  import opened DeltaP

  const Page := "/var/www/customers/public_html/index.php"
  const Html := "<html><body><h1>Hello World</h1></body></html>"

  /** The `statement` fixture. */
  const Fixture: PStatement :=
    PSeq(
      PSeq(
        PSeq(
          PSkip,
          PLet("state-2", PEConst(PStr("present")), 2,
            PLet("content-1", PEConst(PStr(Html)), 1,
              PCreate(PEConst(PStr(Page)), PEVar("content-1"))))),
        PLet("mode-3", PEConst(PStr("0755")), 3,
          PChmod(PEConst(PStr(Page)), PEVar("mode-3")))),
      PLet("owner-4", PEConst(PStr("web_admin")), 4,
        PChown(PEConst(PStr(Page)), PEVar("owner-4"))))

  /** The target of `test_patch_solver_mode`. */
  const Target: FileSystem := map[Page := File(Some("0777"), Some("web_admin"), Some(Html))]

  /** The values the test expects of the solver. */
  const Solution: Assignment := map[1 := Html, 2 := "present", 3 := "0777", 4 := "web_admin"]

  /** The value binding `tag` takes: its override, or its literal. */
  function Value(vals: Assignment, tag: int, literal: string): string
  {
    if tag in vals then vals[tag] else literal
  }

  /** The fixture's bindings, in the order `Bindings` lists them. */
  const FixtureBindings: seq<Binding> := [
    Binding("state-2", PEConst(PStr("present")), 2),
    Binding("content-1", PEConst(PStr(Html)), 1),
    Binding("mode-3", PEConst(PStr("0755")), 3),
    Binding("owner-4", PEConst(PStr("web_admin")), 4)]

  /** The fixture binds the four tags 1 to 4, once each, to string
      constants, and uses no variable outside the `PLet` that binds it. */
  lemma FixtureShape()
    ensures Bindings(Fixture) == FixtureBindings
    ensures forall i, j :: 0 <= i < j < 4 ==> FixtureBindings[i].tag != FixtureBindings[j].tag
    ensures forall k :: 0 <= k < 4 ==> 1 <= FixtureBindings[k].tag <= 4 && FixtureBindings[k].expr.PEConst?
    ensures Closed(Fixture, {})
  {
  }

  /** Whatever the assignment, the fixture runs to completion and leaves
      one file: the page, with the content, mode and owner its bindings
      take. */
  lemma FixtureEffect(vals: Assignment)
    ensures Eval(Fixture, map[], vals, map[]) ==
            Ok(map[Page := File(Some(Value(vals, 3, "0755")), Some(Value(vals, 4, "web_admin")), Some(Value(vals, 1, Html)))])
  {
    var content, mode, owner := Value(vals, 1, Html), Value(vals, 3, "0755"), Value(vals, 4, "web_admin");
    var state := Value(vals, 2, "present");
    var created: FileSystem := map[Page := File(None, None, Some(content))];
    var first := PLet("state-2", PEConst(PStr("present")), 2,
                   PLet("content-1", PEConst(PStr(Html)), 1,
                     PCreate(PEConst(PStr(Page)), PEVar("content-1"))));
    var env: map<string, string> := map["state-2" := state];
    assert Eval(PCreate(PEConst(PStr(Page)), PEVar("content-1")), env["content-1" := content], vals, map[]) == Ok(created);
    assert Eval(first, map[], vals, map[]) == Ok(created);
    assert Eval(PSeq(PSkip, first), map[], vals, map[]) == Ok(created);
    var chmodded: FileSystem := map[Page := File(Some(mode), None, Some(content))];
    assert created[Page := created[Page].(mode := Some(mode))] == chmodded;
    var chmod := PChmod(PEConst(PStr(Page)), PEVar("mode-3"));
    assert Eval(chmod, map[]["mode-3" := mode], vals, created) == Ok(chmodded);
    assert Eval(PLet("mode-3", PEConst(PStr("0755")), 3, chmod), map[], vals, created) == Ok(chmodded);
    var chowned: FileSystem := map[Page := File(Some(mode), Some(owner), Some(content))];
    assert chmodded[Page := chmodded[Page].(owner := Some(owner))] == chowned;
    var chown := PChown(PEConst(PStr(Page)), PEVar("owner-4"));
    assert Eval(chown, map[]["owner-4" := owner], vals, chmodded) == Ok(chowned);
    assert Eval(PLet("owner-4", PEConst(PStr("web_admin")), 4, chown), map[], vals, chmodded) == Ok(chowned);
  }

  /** Keeping every literal is not a repair: "0755" is not "0777". */
  lemma LiteralsNotRepair()
    ensures !IsRepair(Fixture, Target, map[])
  {
    FixtureEffect(map[]);
  }

  /** The repair is exactly a mode of "0777" with the fixture's content and
      owner; the binding of "state-2" is free. */
  lemma {:induction false} RepairIff(vals: Assignment)
    ensures IsRepair(Fixture, Target, vals) <==>
            Value(vals, 3, "0755") == "0777" && Value(vals, 4, "web_admin") == "web_admin" && Value(vals, 1, Html) == Html
  {
    FixtureEffect(vals);
    assert Page in Target && Target.Keys == {Page};
  }

  /** The number of the fixture's bindings each assignment keeps. */
  lemma {:induction false} FixtureCost(vals: Assignment)
    ensures Cost(Fixture, vals) ==
            (if Unchanged(FixtureBindings[0], vals) then 1 else 0) +
            (if Unchanged(FixtureBindings[1], vals) then 1 else 0) +
            (if Unchanged(FixtureBindings[2], vals) then 1 else 0) +
            (if Unchanged(FixtureBindings[3], vals) then 1 else 0)
  {
    FixtureShape();
    var bs := FixtureBindings;
    assert bs[1..][0] == bs[1] && bs[1..][1..] == bs[2..];
    assert bs[2..][0] == bs[2] && bs[2..][1..] == bs[3..];
    assert bs[3..][0] == bs[3] && bs[3..][1..] == [];
    assert UnchangedCount(bs[3..], vals) == if Unchanged(bs[3], vals) then 1 else 0;
    assert UnchangedCount(bs[2..], vals) == (if Unchanged(bs[2], vals) then 1 else 0) + UnchangedCount(bs[3..], vals);
    assert UnchangedCount(bs[1..], vals) == (if Unchanged(bs[1], vals) then 1 else 0) + UnchangedCount(bs[2..], vals);
  }

  /** `solver.vars`: the value the fixture's bindings take under an
      assignment, named as in the test. */
  lemma {:induction false} FixtureSolved(vals: Assignment)
    ensures Solved(Fixture, vals, "state-2") == Some(Value(vals, 2, "present"))
    ensures Solved(Fixture, vals, "content-1") == Some(Value(vals, 1, Html))
    ensures Solved(Fixture, vals, "mode-3") == Some(Value(vals, 3, "0755"))
    ensures Solved(Fixture, vals, "owner-4") == Some(Value(vals, 4, "web_admin"))
  {
    FixtureShape();
    var bs := FixtureBindings;
    assert bs[1..][0] == bs[1] && bs[1..][1..] == bs[2..];
    assert bs[2..][0] == bs[2] && bs[2..][1..] == bs[3..];
    assert SolvedIn(bs[1..], vals, "content-1") == Some(Value(vals, 1, Html));
    assert SolvedIn(bs[2..], vals, "mode-3") == Some(Value(vals, 3, "0755"));
    assert SolvedIn(bs[3..], vals, "owner-4") == Some(Value(vals, 4, "web_admin"));
    assert SolvedIn(bs[2..], vals, "owner-4") == SolvedIn(bs[3..], vals, "owner-4");
    assert SolvedIn(bs[1..], vals, "mode-3") == SolvedIn(bs[2..], vals, "mode-3");
    assert SolvedIn(bs[1..], vals, "owner-4") == SolvedIn(bs[2..], vals, "owner-4");
  }

  /** `solve` finds a model: the test's values are a repair, of cost 3. */
  lemma SolutionIsRepair()
    ensures IsRepair(Fixture, Target, Solution)
    ensures Cost(Fixture, Solution) == 3
  {
    RepairIff(Solution);
    FixtureCost(Solution);
  }

  /** No repair keeps more than 3 bindings: every repair changes "mode-3". */
  lemma {:induction false} CostAtMostThree(vals: Assignment)
    requires IsRepair(Fixture, Target, vals)
    ensures Cost(Fixture, vals) <= 3
    ensures !Unchanged(FixtureBindings[2], vals)
  {
    RepairIff(vals);
    FixtureCost(vals);
  }

  /** A repair of cost 3 keeps bindings 1, 2 and 4, changes binding 3, and
      its values are those of the test: content-1 is the page, mode-3 is
      "0777" and owner-4 is "web_admin". */
  lemma {:induction false} OptimumUnique(vals: Assignment)
    requires IsRepair(Fixture, Target, vals) && Cost(Fixture, vals) == 3
    ensures Unchanged(FixtureBindings[0], vals) && Unchanged(FixtureBindings[1], vals)
    ensures !Unchanged(FixtureBindings[2], vals)
    ensures Unchanged(FixtureBindings[3], vals)
    ensures Solved(Fixture, vals, "content-1") == Some(Html)
    ensures Solved(Fixture, vals, "state-2") == Some("present")
    ensures Solved(Fixture, vals, "mode-3") == Some("0777")
    ensures Solved(Fixture, vals, "owner-4") == Some("web_admin")
  {
    RepairIff(vals);
    FixtureCost(vals);
    FixtureSolved(vals);
  }
}
