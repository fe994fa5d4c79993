/** Runs of the terminal system in which trims obey a rule, and how they are put together. */
module TerminalRuns {
  import opened TerminalStream

  /** No trim at all, or only such as leave at least `cap` entries. */
  datatype Trimming = NoTrims | LeavingAtLeast(cap: nat)

  predicate Allows(rule: Trimming, s: State, step: Step) {
    step.Trim? ==> rule.LeavingAtLeast? && step.upTo + rule.cap <= |s.log|
  }

  ghost predicate RunUnder(s: State, rule: Trimming, steps: seq<Step>, t: State)
    decreases |steps|
  {
    if steps == [] then t == s
    else Enabled(s, steps[0]) && Allows(rule, s, steps[0]) && RunUnder(Next(s, steps[0]), rule, steps[1..], t)
  }

  ghost predicate Reaches(s: State, rule: Trimming, t: State) {
    exists steps: seq<Step> :: RunUnder(s, rule, steps, t)
  }

  lemma {:induction false} RunUnderRuns(s: State, rule: Trimming, steps: seq<Step>, t: State)
    requires RunUnder(s, rule, steps, t)
    ensures Runs(s, steps) && Final(s, steps) == t
    decreases |steps|
  {
    if steps != [] {
      RunUnderRuns(Next(s, steps[0]), rule, steps[1..], t);
    }
  }

  lemma {:induction false} RunUnderOn(
      s: State, rule: Trimming, first: seq<Step>, m: State, second: seq<Step>, t: State)
    requires RunUnder(s, rule, first, m) && RunUnder(m, rule, second, t)
    ensures RunUnder(s, rule, first + second, t)
    decreases |first|
  {
    if first == [] {
      assert first + second == second;
    } else {
      RunUnderOn(Next(s, first[0]), rule, first[1..], m, second, t);
      assert (first + second)[1..] == first[1..] + second;
    }
  }

  lemma ReachesOn(s: State, rule: Trimming, m: State, t: State)
    requires Reaches(s, rule, m) && Reaches(m, rule, t)
    ensures Reaches(s, rule, t)
  {
    var first: seq<Step> :| RunUnder(s, rule, first, m);
    var second: seq<Step> :| RunUnder(m, rule, second, t);
    RunUnderOn(s, rule, first, m, second, t);
  }

  lemma ReachesNext(s: State, rule: Trimming, step: Step, t: State)
    requires Enabled(s, step) && Allows(rule, s, step) && Next(s, step) == t
    ensures Reaches(s, rule, t)
  {
    assert [step][1..] == [];
    assert RunUnder(t, rule, [], t);
    assert RunUnder(s, rule, [step], t);
  }

  lemma StaysPut(s: State, rule: Trimming)
    ensures Reaches(s, rule, s)
  {
    assert RunUnder(s, rule, [], s);
  }
}
