// The control loop among the children of a whole run: every act it makes is a
// step of System.dfy, so what is proved of all runs is true of its gate.

module Serving {
  import opened Options
  import opened Timing
  import opened Protocol
  import opened Server
  import Control
  import Gate
  import Pool
  import S = System
  import Wire

  // ----- one act -----

  // The step that an act of this generation's loop is, where command k is the
  // one obeyed.
  function StepOf(g: nat, act: Act, k: nat): S.Step {
    match act
    case Own(event) => S.Work(g, event)
    case Obeyed(_, call) => S.Obey(g, k, call)
    case Reported(heartbeat) => S.Beat(g, heartbeat)
  }

  // The call that a command not yet passed asks for, or nothing that moves the
  // lease.
  ghost predicate Proper(log: seq<Event>, g: nat, taken: nat, act: Act, k: nat) {
    match act
    case Own(event) => S.GrantsNothing(event)
    case Obeyed(_, call) => taken <= k < |S.Sent(log, g)| && S.Asks(S.Sent(log, g)[k], call)
    case Reported(_) => true
  }

  ghost predicate Timely(s: S.System, g: nat, act: Act)
    requires g in s.children
  {
    if act.Reported? then act.heartbeat <= s.children[g].pool.clock
    else s.now <= Pool.FirstReading(Effect(act)) && Pool.Enabled(s.children[g].pool, Effect(act))
  }

  // Another state of the same log, in which only this child may differ.
  ghost predicate OnlyChild(s: S.System, t: S.System, g: nat) {
    && t.h == s.h && t.heard == s.heard && t.children.Keys == s.children.Keys
    && forall c :: c in s.children && c != g ==> t.children[c] == s.children[c]
  }

  // In any state of any run, whatever other threads and generations did before
  // it, the loop's next act is a step the system can make.
  lemma ActIsAStep(s: S.System, g: nat, act: Act, k: nat)
    requires g in s.children && Proper(s.h.log, g, s.children[g].taken, act, k) && Timely(s, g, act)
    ensures S.Enabled(s, StepOf(g, act, k))
    ensures var t := S.Next(s, StepOf(g, act, k));
            && OnlyChild(s, t, g)
            && t.children[g].taken == (if act.Obeyed? then k + 1 else s.children[g].taken)
            && (if act.Reported? then t.children[g].pool == s.children[g].pool && t.now == s.now
                else t.children[g].pool == Pool.Next(s.children[g].pool, Effect(act))
                     && t.now == Pool.LastReading(Effect(act)))
  {
  }

  // ----- several acts -----

  // Each act is proper, where orders[i] is the command that act i obeys; and
  // they obey commands in the order in which these were sent.
  ghost predicate AllProper(log: seq<Event>, g: nat, taken: nat, acts: seq<Act>, orders: seq<nat>) {
    && |orders| == |acts|
    && (forall i :: 0 <= i < |acts| ==> Proper(log, g, taken, acts[i], orders[i]))
    && (forall i, j :: 0 <= i < j < |acts| && acts[i].Obeyed? && acts[j].Obeyed? ==> orders[i] < orders[j])
  }

  // This generation's pool is p, at time t or before.
  ghost predicate At(s: S.System, g: nat, p: Pool.PoolState, t: int) {
    g in s.children && s.children[g].pool == p && s.now <= t
  }

  // The run goes on by steps of this generation's child alone.
  ghost predicate GoesOn(states: seq<S.System>, steps: seq<S.Step>, more: seq<S.System>, next: seq<S.Step>, g: nat)
    requires |states| == |steps| + 1
  {
    S.Run(more, next) && states <= more && steps <= next && OnlyChild(states[|steps|], more[|next|], g)
  }

  lemma AfterFirst(log: seq<Event>, g: nat, taken: nat, acts: seq<Act>, orders: seq<nat>)
    requires AllProper(log, g, taken, acts, orders) && acts != []
    ensures AllProper(log, g, if acts[0].Obeyed? then orders[0] + 1 else taken, acts[1..], orders[1..])
  {
    forall i | 0 <= i < |acts| - 1
      ensures Proper(log, g, if acts[0].Obeyed? then orders[0] + 1 else taken, acts[1..][i], orders[1..][i])
    {
      assert Proper(log, g, taken, acts[i + 1], orders[i + 1]);
    }
  }

  lemma {:induction false} ActsGoOn(states: seq<S.System>, steps: seq<S.Step>, g: nat, acts: seq<Act>, orders: seq<nat>,
                                    p: Pool.PoolState, t: int, q: Pool.PoolState, u: int)
    returns (more: seq<S.System>, next: seq<S.Step>)
    requires S.Run(states, steps) && At(states[|steps|], g, p, t) && Does(p, t, acts, q, u)
    requires AllProper(states[|steps|].h.log, g, states[|steps|].children[g].taken, acts, orders)
    ensures GoesOn(states, steps, more, next, g) && At(more[|next|], g, q, u)
    decreases |acts|
  {
    more, next := states, steps;
    if acts != [] {
      var s;
      ActIsAStep(states[|steps|], g, acts[0], orders[0]);
      AfterFirst(states[|steps|].h.log, g, states[|steps|].children[g].taken, acts, orders);
      more, next, s := S.Go(states, steps, StepOf(g, acts[0], orders[0]));
      ghost var later := if acts[0].Reported? then t else Pool.LastReading(Effect(acts[0]));
      more, next := ActsGoOn(more, next, g, acts[1..], orders[1..], s.children[g].pool, later, q, u);
    }
  }

  // ----- one pass -----

  // This message is the command number k that was sent to this generation.
  ghost predicate IsSent(log: seq<Event>, g: nat, m: Message, k: nat) {
    && k < |S.Sent(log, g)| && m.generation == g && S.Sent(log, g)[k].CommandSent?
    && S.Sent(log, g)[k].number == m.number && S.Sent(log, g)[k].command == m.payload
  }

  // The messages were sent to this generation in this order, after those that
  // were already taken. Others sent between them may be missing.
  ghost predicate Delivered(log: seq<Event>, g: nat, taken: nat, batch: seq<Message>, ks: seq<nat>) {
    && |ks| == |batch|
    && (forall i :: 0 <= i < |batch| ==> taken <= ks[i] && IsSent(log, g, batch[i], ks[i]))
    && (forall i, j :: 0 <= i < j < |batch| ==> ks[i] < ks[j])
  }

  // What the loop does for a message is proper, and obeys it at most once.
  lemma HandlingIsProper(log: seq<Event>, g: nat, taken: nat, m: Message, k: nat, acts: seq<Act>)
    returns (orders: seq<nat>)
    requires Handles(m, acts) && IsSent(log, g, m, k) && taken <= k
    ensures orders == seq(|acts|, _ => k) && AllProper(log, g, taken, acts, orders)
  {
    orders := seq(|acts|, _ => k);
    var i := S.SentIsLogged(log, g, k);
  }

  lemma JoinProper(log: seq<Event>, g: nat, taken: nat, a: seq<Act>, x: seq<nat>, b: seq<Act>, y: seq<nat>, k: nat)
    requires AllProper(log, g, taken, a, x) && AllProper(log, g, taken, b, y)
    requires (forall i :: 0 <= i < |a| && a[i].Obeyed? ==> x[i] < k) && (forall i :: 0 <= i < |b| ==> k <= y[i])
    ensures AllProper(log, g, taken, a + b, x + y)
  {
    forall i | 0 <= i < |a + b|
      ensures Proper(log, g, taken, (a + b)[i], (x + y)[i])
    {
      if i < |a| {
        assert Proper(log, g, taken, a[i], x[i]);
      } else {
        assert Proper(log, g, taken, b[i - |a|], y[i - |a|]);
      }
    }
  }

  lemma {:induction false} HandlingAllIsProper(log: seq<Event>, g: nat, taken: nat, batch: seq<Message>, ks: seq<nat>,
                                               acts: seq<Act>) returns (orders: seq<nat>)
    requires HandlesAll(batch, acts) && Delivered(log, g, taken, batch, ks)
    ensures AllProper(log, g, taken, acts, orders)
    ensures forall i :: 0 <= i < |acts| && acts[i].Obeyed? ==> batch != [] && orders[i] <= ks[|ks| - 1]
    decreases |batch|
  {
    orders := [];
    if batch != [] {
      var n := |batch| - 1;
      var c: nat :| HandlesLast(batch, acts, c);
      var before := HandlingAllIsProper(log, g, taken, batch[..n], ks[..n], acts[..c]);
      var last := HandlingIsProper(log, g, taken, batch[n], ks[n], acts[c..]);
      JoinProper(log, g, taken, acts[..c], before, acts[c..], last, ks[n]);
      assert acts[..c] + acts[c..] == acts;
      orders := before + last;
    }
  }

  // An act of the loop's own accord and a heartbeat are always proper.
  lemma OwnIsProper(log: seq<Event>, g: nat, taken: nat, acts: seq<Act>, k: nat) returns (orders: seq<nat>)
    requires Beats(acts) || (|acts| == 1 && Closes(acts[0], None, "control_invalid"))
    ensures orders == seq(|acts|, _ => k) && AllProper(log, g, taken, acts, orders)
    ensures forall i :: 0 <= i < |acts| ==> !acts[i].Obeyed?
  {
    orders := seq(|acts|, _ => k);
  }

  lemma PassIsProper(log: seq<Event>, g: nat, taken: nat, received: Control.Receipt<Wire.Command>, ks: seq<nat>,
                     acts: seq<Act>, c: nat) returns (orders: seq<nat>)
    requires Passes(received, acts, c)
    requires received.Messages? ==> Delivered(log, g, taken, received.batch, ks)
    ensures AllProper(log, g, taken, acts, orders)
  {
    var first;
    if received.Messages? {
      first := HandlingAllIsProper(log, g, taken, received.batch, ks, acts[..c]);
    } else {
      first := OwnIsProper(log, g, taken, acts[..c], 0);
    }
    var k := if received.Messages? && ks != [] then ks[|ks| - 1] + 1 else 0;
    var beat := OwnIsProper(log, g, taken, acts[c..], k);
    JoinProper(log, g, taken, acts[..c], first, acts[c..], beat, k);
    assert acts[..c] + acts[c..] == acts;
    orders := first + beat;
  }

  // One pass of the loop, over commands that its supervisor sent it, is a run
  // of the system's own steps. So the run it is part of goes on as a run, and
  // afterwards too the lease in its gate is none beyond the latest one sent.
  lemma PassGoesOn(states: seq<S.System>, steps: seq<S.Step>, g: nat, received: Control.Receipt<Wire.Command>,
                   ks: seq<nat>, p: Pool.PoolState, t: int, acts: seq<Act>, c: nat, q: Pool.PoolState, u: int)
    returns (more: seq<S.System>, next: seq<S.Step>)
    requires S.Run(states, steps) && At(states[|steps|], g, p, t)
    requires Passes(received, acts, c) && Does(p, t, acts, q, u)
    requires var s := states[|steps|];
             received.Messages? ==> Delivered(s.h.log, g, s.children[g].taken, received.batch, ks)
    ensures GoesOn(states, steps, more, next, g) && At(more[|next|], g, q, u)
    ensures q.gate.generation == g && q.gate.leaseUntil <= LatestLease(states[|steps|].h.log, g)
  {
    var s := states[|steps|];
    var orders := PassIsProper(s.h.log, g, s.children[g].taken, received, ks, acts, c);
    more, next := ActsGoOn(states, steps, g, acts, orders, p, t, q, u);
    S.AlwaysInv(more, next, |next|);
    assert S.ChildInv(g, more[|next|].children[g], more[|next|].h.log, more[|next|].now);
  }
}
