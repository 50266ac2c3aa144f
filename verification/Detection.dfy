// Detection in time, put together: a supervisor among the children of a whole
// run.

module Detection {
  import opened Options
  import opened Timing
  import S = Supervisor
  import System

  // What a tick that leaves a supervisor in service has established, without
  // any provision about its heartbeats: as long as they come from a child of
  // the run, the last one is younger than its limit, and no job it shows is
  // older than the work limit and the confirmation window.
  lemma DeadlinesAreMet(s: S.Supervisor, now: int, states: seq<System.System>, steps: seq<System.Step>, n: nat)
    requires s.Inv() && s.InTime(now)
    requires System.Run(states, steps) && n < |states| && states[n].h == s.history
    ensures now < s.lastHeartbeat + HEARTBEAT_LIMIT && s.lastSnapshot.Some?
    ensures forall id :: id in s.lastSnapshot.value.snapshot.jobs ==>
              now < s.lastSnapshot.value.snapshot.jobs[id].admittedAt + WORK_LIMIT + WORK_CONFIRMATION
  {
    System.BeatsFromOnePool(states, steps, n);
  }
}
