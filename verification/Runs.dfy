/** Runs of a step relation. */
module Runs {

  predicate StepAt<S(!new)>(step: (S, S) -> bool, path: seq<S>, i: int)
    requires 0 < i < |path|
  {
    step(path[i - 1], path[i])
  }

  predicate IsRun<S(!new)>(step: (S, S) -> bool, path: seq<S>) {
    path != [] && forall i | 0 < i < |path| :: StepAt(step, path, i)
  }

  ghost predicate Leads<S(!new)>(step: (S, S) -> bool, s: S, r: S) {
    exists path :: IsRun(step, path) && path[0] == s && path[|path| - 1] == r
  }

  lemma LeadsNowhere<S(!new)>(step: (S, S) -> bool, s: S)
    ensures Leads(step, s, s)
  {
    assert IsRun(step, [s]);
  }

  lemma LeadsByStep<S(!new)>(step: (S, S) -> bool, s: S, r: S)
    requires step(s, r)
    ensures Leads(step, s, r)
  {
    var path := [s, r];
    assert StepAt(step, path, 1);
    assert IsRun(step, path) && path[0] == s && path[|path| - 1] == r;
  }

  lemma LeadsOnwards<S(!new)>(step: (S, S) -> bool, s: S, r: S, t: S)
    requires Leads(step, s, r) && Leads(step, r, t)
    ensures Leads(step, s, t)
  {
    var one :| IsRun(step, one) && one[0] == s && one[|one| - 1] == r;
    var two :| IsRun(step, two) && two[0] == r && two[|two| - 1] == t;
    var path := one + two[1..];
    forall i | 0 < i < |path|
      ensures StepAt(step, path, i)
    {
      if i >= |one| {
        assert StepAt(step, two, i - |one| + 1);
      } else {
        assert StepAt(step, one, i);
      }
    }
    assert IsRun(step, path) && path[0] == s && path[|path| - 1] == t;
  }

  lemma {:induction false} RunKeeps<S(!new)>(step: (S, S) -> bool, inv: S -> bool, path: seq<S>)
    requires IsRun(step, path) && inv(path[0])
    requires forall a, b | inv(a) && step(a, b) :: inv(b)
    ensures inv(path[|path| - 1])
    decreases |path|
  {
    if |path| > 1 {
      var init := path[..|path| - 1];
      forall i | 0 < i < |init|
        ensures StepAt(step, init, i)
      {
        assert StepAt(step, path, i);
      }
      RunKeeps(step, inv, init);
      assert StepAt(step, path, |path| - 1);
    }
  }

  /** What every step keeps, every run keeps. */
  lemma LeadsKeeps<S(!new)>(step: (S, S) -> bool, inv: S -> bool, s: S, r: S)
    requires Leads(step, s, r) && inv(s)
    requires forall a, b | inv(a) && step(a, b) :: inv(b)
    ensures inv(r)
  {
    var path :| IsRun(step, path) && path[0] == s && path[|path| - 1] == r;
    RunKeeps(step, inv, path);
  }
}
