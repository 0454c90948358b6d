/**
 * Issuing a sequence of collaborator calls when any of them may throw.
 * The store and election services are seen only through the calls they
 * receive; which call throws, and with what message, is decided by an
 * oracle `faults`: the call that would become entry `n` of the call log
 * throws with message `faults[n]` (None is a null message).
 */
module Execution {
  import opened Domain

  datatype Outcome = Completed | Threw(message: Option<string>)

  /** The calls that completed, and how the sequence ended. */
  datatype Trace = Trace(log: seq<Effect>, outcome: Outcome)

  /**
   * Issues the calls of `plan` in order after `log`. The first call that
   * throws ends the sequence: it is not recorded and no later call is made.
   */
  function Execute(faults: map<nat, Option<string>>, log: seq<Effect>, plan: seq<Effect>): (r: Trace)
    ensures |log| <= |r.log| <= |log| + |plan|
    ensures r.outcome.Completed? <==> |r.log| == |log| + |plan|
    decreases |plan|
  {
    if plan == [] then Trace(log, Completed)
    else if |log| in faults then Trace(log, Threw(faults[|log|]))
    else Execute(faults, log + [plan[0]], plan[1..])
  }

  /**
   * What any execution records: a prefix of the plan after the old log, no
   * call whose position is a fault, all of the plan exactly when it
   * completed, and otherwise the fault's message for the next position.
   */
  lemma {:induction false} ExecuteShape(faults: map<nat, Option<string>>, log: seq<Effect>, plan: seq<Effect>)
    ensures var r := Execute(faults, log, plan);
      && |log| <= |r.log| <= |log| + |plan|
      && r.log == log + plan[..|r.log| - |log|]
      && (forall n :: |log| <= n < |r.log| ==> n !in faults)
      && (r.outcome.Completed? <==> |r.log| == |log| + |plan|)
      && (r.outcome.Threw? ==> |r.log| in faults && r.outcome.message == faults[|r.log|])
    decreases |plan|
  {
    if plan != [] && |log| !in faults {
      ExecuteShape(faults, log + [plan[0]], plan[1..]);
      var r := Execute(faults, log + [plan[0]], plan[1..]);
      var k := |r.log| - |log| - 1;
      assert [plan[0]] + plan[1..][..k] == plan[..k + 1];
      assert log + [plan[0]] + plan[1..][..k] == log + plan[..k + 1];
    }
  }

  /** Issuing the first call of a plan: it throws, or it is logged and the rest of the plan follows. */
  lemma ExecuteFirst(faults: map<nat, Option<string>>, log: seq<Effect>, plan: seq<Effect>)
    requires plan != []
    ensures Execute(faults, log, plan)
         == if |log| in faults then Trace(log, Threw(faults[|log|])) else Execute(faults, log + [plan[0]], plan[1..])
  {
  }

  /** Issuing `p` then `q`: `q` is issued only if every call of `p` completed. */
  lemma {:induction false} ExecuteAppend(faults: map<nat, Option<string>>, log: seq<Effect>, p: seq<Effect>, q: seq<Effect>)
    ensures Execute(faults, log, p + q)
         == var t := Execute(faults, log, p); if t.outcome.Completed? then Execute(faults, t.log, q) else t
    decreases |p|
  {
    if p == [] {
      assert p + q == q;
    } else {
      assert (p + q)[0] == p[0] && (p + q)[1..] == p[1..] + q;
      if |log| !in faults {
        ExecuteAppend(faults, log + [p[0]], p[1..], q);
      }
    }
  }

  /** With no faults at all, every call of the plan is made, in order. */
  lemma {:induction false} ExecuteWithoutFaults(faults: map<nat, Option<string>>, log: seq<Effect>, plan: seq<Effect>)
    requires forall n :: |log| <= n < |log| + |plan| ==> n !in faults
    ensures Execute(faults, log, plan) == Trace(log + plan, Completed)
  decreases |plan|
  {
    if plan != [] {
      assert log + [plan[0]] + plan[1..] == log + plan;
      ExecuteWithoutFaults(faults, log + [plan[0]], plan[1..]);
    }
  }

  /**
   * The first fault decides the run: when position `|log| + k` is the first
   * position of the plan in `faults`, the first `k` calls are recorded and
   * the run ends with that fault's message.
   */
  lemma ExecuteStopsAtFirstFault(faults: map<nat, Option<string>>, log: seq<Effect>, plan: seq<Effect>, k: nat)
    requires k < |plan| && |log| + k in faults
    requires forall n :: |log| <= n < |log| + k ==> n !in faults
    ensures Execute(faults, log, plan) == Trace(log + plan[..k], Threw(faults[|log| + k]))
  {
    assert plan == plan[..k] + plan[k..];
    ExecuteAppend(faults, log, plan[..k], plan[k..]);
    ExecuteWithoutFaults(faults, log, plan[..k]);
    ExecuteFirst(faults, log + plan[..k], plan[k..]);
  }
}
