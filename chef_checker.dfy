/** The `Checker` of the ChefParser in thesis/parsers/cmof.py: a stack of
    (tests, tree) entries; checking an entry pops it and tries its tests. */
module ChefChecker {
  import opened ChefNode

  /** A test of a tree. The tests of the resource and variable checkers also
      push entries and fill in the unit they build; that is not part of this
      model, where a test is a pure predicate. */
  type Test = Ast -> bool

  /** One `(tests, ast)` pair of the stack. */
  datatype Entry = Entry(tests: seq<Test>, ast: Ast)

  /** Some test of the entry accepts its tree. */
  predicate Passes(e: Entry)
  {
    exists i :: 0 <= i < |e.tests| && e.tests[i](e.ast)
  }

  predicate AllPass(stack: seq<Entry>)
  {
    forall j :: 0 <= j < |stack| ==> Passes(stack[j])
  }

  /** The stack `check_all` leaves: entries are popped from the top until one
      fails, and that one is popped too. */
  function Remaining(stack: seq<Entry>): seq<Entry>
  {
    if stack == [] then []
    else if Passes(stack[|stack| - 1]) then Remaining(stack[..|stack| - 1])
    else stack[..|stack| - 1]
  }

  /** When every entry passes, `check_all` empties the stack. Otherwise it
      stops at the topmost failing entry: what is left is the part of the
      stack below it, and every entry popped before it passed. */
  lemma {:induction false} RemainingSpec(stack: seq<Entry>)
    ensures var r := Remaining(stack);
            |r| <= |stack| && r == stack[..|r|]
    ensures AllPass(stack) ==> Remaining(stack) == []
    ensures !AllPass(stack) ==>
              var r := Remaining(stack);
              |r| < |stack| && !Passes(stack[|r|]) &&
              forall j :: |r| < j < |stack| ==> Passes(stack[j])
  {
    if stack != [] {
      var n := |stack| - 1;
      var front := stack[..n];
      RemainingSpec(front);
      assert forall j :: 0 <= j < n ==> front[j] == stack[j];
      if Passes(stack[n]) {
        assert AllPass(stack) <==> AllPass(front);
      }
    }
  }

  class Checker {
    var testsAstStack: seq<Entry>
    var lines: seq<string>

    constructor (lines: seq<string>)
      ensures testsAstStack == [] && this.lines == lines
    {
      testsAstStack := [];
      this.lines := lines;
    }

    method Push(tests: seq<Test>, ast: Ast)
      modifies this
      ensures testsAstStack == old(testsAstStack) + [Entry(tests, ast)]
      ensures lines == old(lines)
    {
      testsAstStack := testsAstStack + [Entry(tests, ast)];
    }

    /** `pop`: `ok` is false where the list pop raises IndexError, on an
        empty stack, and then nothing changes. */
    method Pop() returns (ok: bool, e: Entry)
      modifies this
      ensures ok <==> old(testsAstStack) != []
      ensures ok ==> e == old(testsAstStack)[|old(testsAstStack)| - 1] &&
                     testsAstStack == old(testsAstStack)[..|old(testsAstStack)| - 1]
      ensures !ok ==> testsAstStack == old(testsAstStack)
      ensures lines == old(lines)
    {
      if testsAstStack == [] {
        return false, Entry([], Other);
      }
      e := testsAstStack[|testsAstStack| - 1];
      testsAstStack := testsAstStack[..|testsAstStack| - 1];
      ok := true;
    }

    /** `check`: pops the top entry and tries its tests in order until one
        accepts the tree. `ok` is false where the pop raises. */
    method Check() returns (ok: bool, passed: bool)
      modifies this
      ensures ok <==> old(testsAstStack) != []
      ensures ok ==> testsAstStack == old(testsAstStack)[..|old(testsAstStack)| - 1] &&
                     (passed <==> Passes(old(testsAstStack)[|old(testsAstStack)| - 1]))
      ensures !ok ==> testsAstStack == old(testsAstStack)
      ensures lines == old(lines)
    {
      var e;
      ok, e := Pop();
      if !ok {
        return false, false;
      }
      var i := 0;
      while i < |e.tests|
        invariant 0 <= i <= |e.tests|
        invariant forall j :: 0 <= j < i ==> !e.tests[j](e.ast)
      {
        if e.tests[i](e.ast) {
          return true, true;
        }
        i := i + 1;
      }
      passed := false;
    }

    /** `check_all`: checks entries from the top while they pass. It is true
        exactly when every entry passes, and leaves `Remaining` of the stack. */
    method CheckAll() returns (status: bool)
      modifies this
      ensures status <==> AllPass(old(testsAstStack))
      ensures testsAstStack == Remaining(old(testsAstStack))
      ensures lines == old(lines)
    {
      status := true;
      while testsAstStack != [] && status
        invariant lines == old(lines)
        invariant status ==> (AllPass(old(testsAstStack)) <==> AllPass(testsAstStack))
        invariant status ==> Remaining(old(testsAstStack)) == Remaining(testsAstStack)
        invariant !status ==> !AllPass(old(testsAstStack)) && testsAstStack == Remaining(old(testsAstStack))
        decreases |testsAstStack|
      {
        ghost var before := testsAstStack;
        var ok;
        ok, status := Check();
        assert forall j :: 0 <= j < |testsAstStack| ==> testsAstStack[j] == before[j];
        assert AllPass(before) <==> AllPass(testsAstStack) && Passes(before[|before| - 1]);
      }
    }
  }
}
