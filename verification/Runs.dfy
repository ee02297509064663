/** States reached by runs of the database machine, and where they lead. */
module Runs {
  import opened Database
  import opened DatabaseInvariant
  import opened DatabaseSafety

  ghost predicate Reachable(s: State) {
    exists states, steps :: IsRun(states, steps) && states[|states| - 1] == s
  }

  lemma ReachFirst(s: State)
    requires Init(s)
    ensures Reachable(s)
  {
    assert IsRun([s], []) && [s][|[s]| - 1] == s;
  }

  lemma Reach(s: State, step: Step, s': State)
    requires Reachable(s) && Next(s, step, s')
    ensures Reachable(s')
  {
    var states, steps :| IsRun(states, steps) && states[|states| - 1] == s;
    var states', steps' := states + [s'], steps + [step];
    forall i | 0 <= i < |steps'| ensures Next(states'[i], steps'[i], states'[i + 1]) {
      assert i < |steps| ==> Next(states[i], steps[i], states[i + 1]);
    }
    assert IsRun(states', steps') && states'[|states'| - 1] == s';
  }

  lemma ReachUp(db: Db, step: Step, db': Db)
    requires Reachable(Up(db)) && UpStep(db, step, db') && !step.Crash?
    ensures Reachable(Up(db'))
  {
    Reach(Up(db), step, Up(db'));
  }

  lemma ReachableOk(s: State)
    requires Reachable(s)
    ensures Invariant(s)
  {
    var states, steps :| IsRun(states, steps) && states[|states| - 1] == s;
    RunInvariant(states, steps, |states| - 1);
  }

  ghost predicate IsPath(states: seq<State>, steps: seq<Step>) {
    |states| == |steps| + 1 && forall i :: 0 <= i < |steps| ==> Next(states[i], steps[i], states[i + 1])
  }

  /** Some steps lead from `s` to `t`. */
  ghost predicate Leads(s: State, t: State) {
    exists states, steps :: IsPath(states, steps) && states[0] == s && states[|states| - 1] == t
  }

  lemma Stay(s: State)
    ensures Leads(s, s)
  {
    assert IsPath([s], []) && [s][0] == s && [s][|[s]| - 1] == s;
  }

  /** One step more. */
  lemma Go(s: State, t: State, step: Step, t': State)
    requires Leads(s, t) && Reachable(t) && Next(t, step, t')
    ensures Leads(s, t') && Reachable(t')
  {
    Reach(t, step, t');
    var states, steps :| IsPath(states, steps) && states[0] == s && states[|states| - 1] == t;
    var states', steps' := states + [t'], steps + [step];
    forall i | 0 <= i < |steps'| ensures Next(states'[i], steps'[i], states'[i + 1]) {
      assert i < |steps| ==> Next(states[i], steps[i], states[i + 1]);
    }
    assert IsPath(states', steps') && states'[0] == s && states'[|states'| - 1] == t';
  }

  lemma GoUp(s: State, db: Db, step: Step, db': Db)
    requires Leads(s, Up(db)) && Reachable(Up(db)) && UpStep(db, step, db') && !step.Crash?
    ensures Leads(s, Up(db')) && Reachable(Up(db'))
  {
    Go(s, Up(db), step, Up(db'));
  }
}
