// The child's side of the protocol: the control loop that runs on the server's
// own event loop. It turns commands into gate calls, answers them, and sends a
// heartbeat four times a second or as soon as one is asked for.
//
// Other threads work on the same pool between these calls. So each handler
// also says which acts it made, in order; Serving.dfy shows that every one of
// them is a step that System.dfy lets a child take, whatever came between.

module Server {
  import opened Options
  import opened Timing
  import opened Protocol
  import Control
  import Gate
  import Pool
  import Wire

  type Message = Control.Message<Wire.Command>

  // ----- what the loop does to the pool -----

  datatype Act =
    | Own(event: Pool.Event)                  // of its own accord
    | Obeyed(number: nat, call: Gate.Call)    // the gate call a command asks for
    | Reported(heartbeat: int)                // a heartbeat of the pool as it is

  function Effect(act: Act): Pool.Event
    requires !act.Reported?
  {
    match act
    case Own(event) => event
    case Obeyed(_, call) => Pool.GateCommand(call)
  }

  // From time t to time u these acts, each enabled in its turn, take the pool
  // from p to q.
  ghost predicate Does(p: Pool.PoolState, t: int, acts: seq<Act>, q: Pool.PoolState, u: int)
    decreases |acts|
  {
    if acts == [] then p == q && t <= u
    else if acts[0].Reported? then acts[0].heartbeat <= p.clock && Does(p, t, acts[1..], q, u)
    else
      var e := Effect(acts[0]);
      && t <= Pool.FirstReading(e) && Pool.Enabled(p, e)
      && Does(Pool.Next(p, e), Pool.LastReading(e), acts[1..], q, u)
  }

  lemma OneAct(p: Pool.PoolState, t: int, act: Act, u: int)
    requires !act.Reported? && Pool.Enabled(p, Effect(act))
    requires t <= Pool.FirstReading(Effect(act)) && Pool.LastReading(Effect(act)) <= u
    ensures Does(p, t, [act], Pool.Next(p, Effect(act)), u)
  {
    assert [act][1..] == [];
  }

  lemma {:induction false} DoesEarlier(p: Pool.PoolState, t: int, later: int, acts: seq<Act>, q: Pool.PoolState, u: int)
    requires t <= later && Does(p, later, acts, q, u)
    ensures Does(p, t, acts, q, u)
    decreases |acts|
  {
    if acts != [] && acts[0].Reported? {
      DoesEarlier(p, t, later, acts[1..], q, u);
    }
  }

  lemma {:induction false} DoesJoin(p: Pool.PoolState, t: int, a: seq<Act>, m: Pool.PoolState, u: int,
                                    b: seq<Act>, q: Pool.PoolState, v: int)
    requires Does(p, t, a, m, u) && Does(m, u, b, q, v)
    ensures Does(p, t, a + b, q, v)
    decreases |a|
  {
    if a == [] {
      assert a + b == b;
      DoesEarlier(p, t, u, b, q, v);
    } else {
      assert (a + b)[0] == a[0] && (a + b)[1..] == a[1..] + b;
      if a[0].Reported? {
        DoesJoin(p, t, a[1..], m, u, b, q, v);
      } else {
        var e := Effect(a[0]);
        DoesJoin(Pool.Next(p, e), Pool.LastReading(e), a[1..], m, u, b, q, v);
      }
    }
  }

  lemma {:induction false} DoesSplit(p: Pool.PoolState, t: int, acts: seq<Act>, k: nat, q: Pool.PoolState, v: int)
    returns (m: Pool.PoolState, u: int)
    requires Does(p, t, acts, q, v) && k <= |acts|
    ensures Does(p, t, acts[..k], m, u) && Does(m, u, acts[k..], q, v)
    decreases k
  {
    if k == 0 {
      m, u := p, t;
    } else {
      assert acts[..k][0] == acts[0] && acts[..k][1..] == acts[1..][..k - 1] && acts[1..][k - 1..] == acts[k..];
      if acts[0].Reported? {
        m, u := DoesSplit(p, t, acts[1..], k - 1, q, v);
      } else {
        var e := Effect(acts[0]);
        m, u := DoesSplit(Pool.Next(p, e), Pool.LastReading(e), acts[1..], k - 1, q, v);
      }
    }
  }

  // ----- what it may do for each command -----

  predicate Looks(act: Act) {
    act.Own? && act.event.TakeSnapshot?
  }

  // A close for the command of this number, or of the loop's own accord.
  function Closing(number: Option<nat>, reason: string, now: int): Act {
    match number
    case Some(n) => Obeyed(n, Gate.Call(Gate.Close(reason), now))
    case None => Own(Pool.GateCommand(Gate.Call(Gate.Close(reason), now)))
  }

  ghost predicate Closes(act: Act, number: Option<nat>, reason: string) {
    exists now :: act == Closing(number, reason, now)
  }

  ghost predicate Handles(m: Message, acts: seq<Act>) {
    match m.payload
    case Lease(until) =>
      |acts| == 1 && acts[0].Obeyed? && acts[0].number == m.number
      && acts[0].call.op == Gate.Op.Renew(m.generation, m.number, until)
    case Close => |acts| == 2 && Closes(acts[0], Some(m.number), "control_close") && Looks(acts[1])
    case Probe => acts == [] || (|acts| == 1 && Looks(acts[0]))
    case SnapshotRequest => acts == []
    case Open(until) =>
      |acts| == 2 && Looks(acts[0]) && acts[1].Obeyed? && acts[1].number == m.number
      && acts[1].call.op.OpenDoor?
      && acts[1].call.op == Gate.OpenDoor(m.generation, m.number, until, acts[1].call.op.ready)
    case Stop => |acts| == 1 && Closes(acts[0], Some(m.number), "supervisor_stop")
  }

  // One message after another.
  ghost predicate HandlesAll(messages: seq<Message>, acts: seq<Act>)
    decreases |messages|, 1
  {
    if messages == [] then acts == []
    else exists k :: HandlesLast(messages, acts, k)
  }

  ghost predicate HandlesLast(messages: seq<Message>, acts: seq<Act>, k: nat)
    requires messages != []
    decreases |messages|, 0
  {
    k <= |acts| && HandlesAll(messages[..|messages| - 1], acts[..k]) && Handles(messages[|messages| - 1], acts[k..])
  }

  predicate Beats(acts: seq<Act>) {
    acts == [] || (|acts| == 2 && Looks(acts[0]) && acts[1].Reported?)
  }

  // What was received, or the close for a receive that raised; then the beat.
  ghost predicate Passes(received: Control.Receipt<Wire.Command>, acts: seq<Act>, k: nat) {
    && k <= |acts|
    && (match received
        case ProtocolError => k == 1 && Closes(acts[0], None, "control_invalid")
        case Messages(batch) => HandlesAll(batch, acts[..k]))
    && Beats(acts[k..])
  }

  datatype Reply =
    | CloseAck(number: nat, occupancy: nat)
    | OpenAck(number: nat)
    | OpenRefused
    | ProbeResult(ok: bool, occupancy: nat)
    | StopAck(number: nat)
    | Heartbeat(snapshot: Pool.Snapshot)

  // An answer that tells the supervisor the door is open is given only so.
  ghost predicate Truthful(r: Reply, p: Pool.PoolState, probeOk: bool) {
    match r
    case OpenAck(_) => probeOk && p.jobs == map[] && p.gate.door.Open?
    case CloseAck(_, occupancy) => p.gate.door.Closed? && occupancy == |p.jobs|
    case StopAck(_) => p.gate.door.Closed?
    case ProbeResult(ok, occupancy) => occupancy == |p.jobs| && (ok ==> probeOk && occupancy == 0)
    case Heartbeat(snapshot) => snapshot == Pool.Report(p, snapshot.heartbeat) && snapshot.heartbeat <= p.clock
    case OpenRefused => true
  }

  class ControlLoop {
    const pool: Pool.BoundedPool
    var nextHeartbeat: int
    var probing: bool          // the one probe was started
    var probeOk: bool          // it passed
    var exiting: bool
    var replies: seq<Reply>    // handed to the channel, in order
    var clock: int

    constructor (pool: Pool.BoundedPool)
      requires pool.Valid() && pool.clock == 0
      ensures Valid() && this.pool == pool && replies == [] && !probing && !probeOk && !exiting
    {
      this.pool := pool;
      nextHeartbeat, probing, probeOk, exiting, replies, clock := 0, false, false, false, [], 0;
    }

    ghost predicate Valid()
      reads this, pool, pool.gate
    {
      pool.Valid() && pool.clock <= clock
    }

    // Shut for good, as long as nobody gives "starting" as a reason.
    ghost predicate ShutForGood()
      reads this, pool, pool.gate
    {
      pool.gate.door.Closed? && !Gate.Startable(pool.gate.Value())
    }

    method ReadClock() returns (t: int)
      requires Valid()
      modifies this`clock
      ensures Valid() && t == clock >= old(clock)
    {
      t :| clock <= t;
      clock := t;
    }

    method Answer(r: Reply)
      requires Valid() && Truthful(r, pool.Value(), probeOk)
      modifies this`replies
      ensures Valid() && replies == old(replies) + [r]
    {
      replies := replies + [r];
    }

    // `gate.close`, called from the control loop.
    method Shut(reason: string, ghost number: Option<nat>) returns (ghost act: Act)
      requires Valid()
      modifies this`clock, pool.gate, pool`clock
      ensures Valid() && pool.jobs == old(pool.jobs) && pool.gate.leaseUntil == old(pool.gate.leaseUntil)
      ensures pool.gate.door.Closed? && pool.gate.safeReason == reason
      ensures Closes(act, number, reason) && Does(old(pool.Value()), old(clock), [act], pool.Value(), clock)
    {
      var now := ReadClock();
      act := Closing(number, reason, now);
      assert Effect(act) == Pool.GateCommand(Gate.Call(Gate.Close(reason), now));
      OneAct(pool.Value(), old(clock), act, now);
      Pool.StepKeepsInv(pool.Value(), Effect(act));
      pool.clock := now;
      pool.gate.CloseDoor(reason, now);
    }

    // `pool.snapshot`, which may find that the lease has run out.
    method Look() returns (s: Pool.Snapshot, ghost act: Act)
      requires Valid()
      modifies this`clock, pool.gate, pool`clock
      ensures Valid() && pool.clock == clock && s == Pool.Report(pool.Value(), clock) && |s.jobs| == |pool.jobs|
      ensures pool.jobs == old(pool.jobs) && pool.gate.leaseUntil == old(pool.gate.leaseUntil)
      ensures old(pool.gate.door.Closed?) ==> pool.gate.Value() == old(pool.gate.Value())
      ensures act == Own(Pool.TakeSnapshot(clock))
      ensures Does(old(pool.Value()), old(clock), [act], pool.Value(), clock)
    {
      var now := ReadClock();
      act := Own(Pool.TakeSnapshot(now));
      OneAct(pool.Value(), old(clock), act, now);
      Pool.StepKeepsInv(pool.Value(), Pool.TakeSnapshot(now));
      Pool.SnapshotKeepsInv(pool.Value(), now);
      s := pool.CurrentSnapshot(now);
      assert s.jobs.Keys == pool.jobs.Keys;
      assert |s.jobs.Keys| == |pool.jobs.Keys|;
    }

    // A lease is handed to the gate, which may refuse it.
    method OnLease(generation: nat, number: nat, until: int) returns (ghost acts: seq<Act>)
      requires Valid()
      modifies this`clock, pool.gate, pool`clock
      ensures Valid() && pool.jobs == old(pool.jobs) && (old(ShutForGood()) ==> ShutForGood())
      ensures acts == [Obeyed(number, Gate.Call(Gate.Op.Renew(generation, number, until), clock))]
      ensures Does(old(pool.Value()), old(clock), acts, pool.Value(), clock)
      ensures pool.gate.leaseUntil == if Gate.AcceptsLease(old(pool.gate.Value()), generation, number, until, clock)
                                      then until else old(pool.gate.leaseUntil)
      ensures pool.gate.door == old(pool.gate.door)
    {
      var now := ReadClock();
      acts := [Obeyed(number, Gate.Call(Gate.Op.Renew(generation, number, until), now))];
      OneAct(pool.Value(), old(clock), acts[0], now);
      Pool.StepKeepsInv(pool.Value(), Effect(acts[0]));
      pool.clock := now;
      var renewed := pool.gate.Renew(generation, number, until, now);
    }

    // A fresh heartbeat was asked for.
    method OnSnapshotRequest()
      requires Valid()
      modifies this`nextHeartbeat
      ensures Valid() && nextHeartbeat == 0
    {
      nextHeartbeat := 0;
    }

    // Close first, then count what is still running.
    method OnClose(number: nat) returns (ghost acts: seq<Act>)
      requires Valid()
      modifies this`clock, this`replies, pool.gate, pool`clock
      ensures Valid() && pool.gate.door.Closed? && pool.jobs == old(pool.jobs)
      ensures pool.gate.safeReason == "control_close" && pool.gate.leaseUntil == old(pool.gate.leaseUntil)
      ensures replies == old(replies) + [CloseAck(number, |pool.jobs|)]
      ensures |acts| == 2 && Closes(acts[0], Some(number), "control_close") && Looks(acts[1])
      ensures Does(old(pool.Value()), old(clock), acts, pool.Value(), clock)
    {
      var occupancy;
      occupancy, acts := ShutAndCount("control_close", Some(number));
      Answer(CloseAck(number, occupancy));
    }

    method ShutAndCount(reason: string, ghost number: Option<nat>) returns (occupancy: nat, ghost acts: seq<Act>)
      requires Valid()
      modifies this`clock, pool.gate, pool`clock
      ensures Valid() && pool.gate.door.Closed? && pool.gate.safeReason == reason
      ensures pool.jobs == old(pool.jobs) && occupancy == |pool.jobs|
      ensures pool.gate.leaseUntil == old(pool.gate.leaseUntil)
      ensures |acts| == 2 && Closes(acts[0], number, reason) && Looks(acts[1])
      ensures Does(old(pool.Value()), old(clock), acts, pool.Value(), clock)
    {
      ghost var p, t := pool.Value(), clock;
      ghost var close := Shut(reason, number);
      ghost var m, u := pool.Value(), clock;
      var s; ghost var look;
      s, look := Look();
      occupancy := |s.jobs|;
      acts := [close] + [look];
      DoesJoin(p, t, [close], m, u, [look], pool.Value(), clock);
    }

    // The one probe is started once; after that the answer is a refusal.
    method OnProbe() returns (start: bool, ghost acts: seq<Act>)
      requires Valid()
      modifies this`clock, this`probing, this`replies, pool.gate, pool`clock
      ensures Valid() && probing && (start <==> !old(probing))
      ensures start ==> replies == old(replies) && acts == []
      ensures !start ==> replies == old(replies) + [ProbeResult(false, |pool.jobs|)] && |acts| == 1 && Looks(acts[0])
      ensures Does(old(pool.Value()), old(clock), acts, pool.Value(), clock)
      ensures pool.jobs == old(pool.jobs) && pool.gate.leaseUntil == old(pool.gate.leaseUntil)
      ensures old(ShutForGood()) ==> ShutForGood()
    {
      start, acts := !probing, [];
      probing := true;
      if !start {
        var s; ghost var look;
        s, look := Look();
        acts := [look];
        Answer(ProbeResult(false, |s.jobs|));
      }
    }

    // The probe comes back, its answers right or not. It passed if they were
    // and nothing runs any more; if not, the gate is shut for good.
    method FinishProbe(right: bool) returns (ghost acts: seq<Act>)
      requires Valid()
      modifies this`clock, this`probeOk, this`replies, pool.gate, pool`clock
      ensures Valid() && pool.jobs == old(pool.jobs) && pool.gate.leaseUntil == old(pool.gate.leaseUntil)
      ensures replies == old(replies) + [ProbeResult(right && |pool.jobs| == 0, |pool.jobs|)]
      ensures probeOk <==> old(probeOk) || (right && |pool.jobs| == 0)
      ensures !(right && |pool.jobs| == 0) || old(ShutForGood()) ==> ShutForGood()
      ensures Does(old(pool.Value()), old(clock), acts, pool.Value(), clock)
      ensures if right && |pool.jobs| == 0 then |acts| == 1 && Looks(acts[0])
              else |acts| == 3 && Looks(acts[0]) && Closes(acts[1], None, "probe_failed") && Looks(acts[2])
    {
      ghost var p, t := pool.Value(), clock;
      var s; ghost var look;
      s, look := Look();
      acts := [look];
      if right && |s.jobs| == 0 {
        probeOk := true;
        Answer(ProbeResult(true, 0));
      } else {
        ghost var m, u := pool.Value(), clock;
        var occupancy; ghost var more;
        occupancy, more := ShutAndCount("probe_failed", None);
        DoesJoin(p, t, acts, m, u, more, pool.Value(), clock);
        acts := acts + more;
        Answer(ProbeResult(false, occupancy));
      }
    }

    // `gate.open`, called from the control loop.
    method OpenGate(generation: nat, number: nat, until: int, ready: bool) returns (ok: bool, ghost act: Act)
      requires Valid()
      modifies this`clock, pool.gate, pool`clock
      ensures Valid() && pool.jobs == old(pool.jobs)
      ensures act == Obeyed(number, Gate.Call(Gate.OpenDoor(generation, number, until, ready), clock))
      ensures Does(old(pool.Value()), old(clock), [act], pool.Value(), clock)
      ensures (pool.gate.Value(), ok) == Gate.Apply(old(pool.gate.Value()), act.call)
    {
      var now := ReadClock();
      act := Obeyed(number, Gate.Call(Gate.OpenDoor(generation, number, until, ready), now));
      OneAct(pool.Value(), old(clock), act, now);
      Pool.StepKeepsInv(pool.Value(), Effect(act));
      pool.clock := now;
      ok := pool.gate.TryOpen(generation, number, until, ready, now);
    }

    // Ready is a gate to open once the probe passed, while nothing runs.
    method IsReady() returns (ready: bool, ghost look: Act)
      requires Valid()
      modifies this`clock, pool.gate, pool`clock
      ensures Valid() && pool.jobs == old(pool.jobs) && pool.gate.leaseUntil == old(pool.gate.leaseUntil)
      ensures ready <==> probeOk && |pool.jobs| == 0
      ensures Looks(look) && Does(old(pool.Value()), old(clock), [look], pool.Value(), clock)
      ensures pool.gate.openedOnce == old(pool.gate.openedOnce)
      ensures old(pool.gate.door.Closed?) ==> pool.gate.Value() == old(pool.gate.Value())
    {
      var s;
      s, look := Look();
      var reconciled := pool.IsReconciled();
      ready := probeOk && |s.jobs| == 0 && reconciled;
    }

    // Open only a gate that never was, on a fresh lease, after a passed probe
    // and with nothing running.
    method OnOpen(generation: nat, number: nat, until: int) returns (ghost acts: seq<Act>)
      requires Valid()
      modifies this`clock, this`replies, pool.gate, pool`clock
      ensures Valid() && pool.jobs == old(pool.jobs)
      ensures if pool.gate.openedOnce && !old(pool.gate.openedOnce)
              then && replies == old(replies) + [OpenAck(number)] && probeOk && |pool.jobs| == 0
                   && pool.gate.door.Open? && clock < pool.gate.leaseUntil == until
              else replies == old(replies) + [OpenRefused] && pool.gate.leaseUntil == old(pool.gate.leaseUntil)
      ensures old(ShutForGood()) ==> ShutForGood()
      ensures |acts| == 2 && Looks(acts[0])
      ensures acts[1] == Obeyed(number, Gate.Call(Gate.OpenDoor(generation, number, until,
                                                                probeOk && |pool.jobs| == 0), clock))
      ensures Does(old(pool.Value()), old(clock), acts, pool.Value(), clock)
    {
      ghost var p, t := pool.Value(), clock;
      var ready; ghost var look;
      ready, look := IsReady();
      ghost var m, u := pool.Value(), clock;
      var ok; ghost var open;
      ok, open := OpenGate(generation, number, until, ready);
      DoesJoin(p, t, [look], m, u, [open], pool.Value(), clock);
      acts := [look] + [open];
      Answer(if ok then OpenAck(number) else OpenRefused);
    }

    method OnStop(number: nat) returns (ghost acts: seq<Act>)
      requires Valid()
      modifies this`clock, this`replies, this`exiting, pool.gate, pool`clock
      ensures Valid() && exiting && pool.gate.door.Closed? && pool.gate.safeReason == "supervisor_stop"
      ensures pool.jobs == old(pool.jobs) && pool.gate.leaseUntil == old(pool.gate.leaseUntil)
      ensures replies == old(replies) + [StopAck(number)]
      ensures |acts| == 1 && Closes(acts[0], Some(number), "supervisor_stop")
      ensures Does(old(pool.Value()), old(clock), acts, pool.Value(), clock)
    {
      ghost var act := Shut("supervisor_stop", Some(number));
      acts := [act];
      Answer(StopAck(number));
      exiting := true;
    }

    // The gate's lease after a command: the command's own, or the one before.
    twostate predicate LeaseFrom(command: Wire.Command)
      reads pool.gate
    {
      || pool.gate.leaseUntil == old(pool.gate.leaseUntil)
      || (command.Lease? && pool.gate.leaseUntil == command.leaseUntil)
      || (command.Open? && pool.gate.leaseUntil == command.leaseUntil && pool.gate.door.Open?)
    }

    // No command admits or releases work, none undoes a close, and none but a
    // lease or an open moves the lease.
    method Handle(m: Message) returns (ghost acts: seq<Act>)
      requires Valid()
      modifies this, pool.gate, pool`clock
      ensures Valid() && pool.jobs == old(pool.jobs)
      ensures old(ShutForGood()) || Shuts(m.payload) ==> ShutForGood()
      ensures Shuts(m.payload) ==> replies == old(replies) + [if m.payload.Stop? then StopAck(m.number)
                                                              else CloseAck(m.number, |pool.jobs|)]
      ensures LeaseFrom(m.payload)
      ensures Handles(m, acts) && Does(old(pool.Value()), old(clock), acts, pool.Value(), clock)
    {
      match m.payload
      case Lease(until) => acts := OnLease(m.generation, m.number, until);
      case Close => acts := OnClose(m.number);
      case Probe =>
        var start;
        start, acts := OnProbe();
      case SnapshotRequest =>
        acts := [];
        OnSnapshotRequest();
      case Open(until) => acts := OnOpen(m.generation, m.number, until);
      case Stop => acts := OnStop(m.number);
    }

    // A heartbeat stamped `now`, of the pool as it is a little later. (The
    // branch that reports unbalanced books is dead: they always balance.)
    method SendHeartbeat(now: int) returns (ghost acts: seq<Act>)
      requires Valid() && now <= clock
      modifies this`clock, this`replies, pool.gate, pool`clock
      ensures Valid() && pool.jobs == old(pool.jobs) && (old(ShutForGood()) ==> ShutForGood())
      ensures replies == old(replies) + [Heartbeat(Pool.Report(pool.Value(), now))] && now <= pool.clock
      ensures |acts| == 2 && Looks(acts[0]) && acts[1] == Reported(now)
      ensures Does(old(pool.Value()), old(clock), acts, pool.Value(), clock)
    {
      ghost var p, t := pool.Value(), clock;
      var s; ghost var look;
      s, look := Look();
      var reconciled := pool.IsReconciled();
      if !reconciled {
        assert false;
      }
      acts := [look] + [Reported(now)];
      assert [Reported(now)][1..] == [];
      DoesJoin(p, t, [look], pool.Value(), clock, [Reported(now)], pool.Value(), clock);
      Answer(Heartbeat(s.(heartbeat := now)));
    }

    // At most one heartbeat a pass, and at most one in a beat interval.
    method Beat() returns (ghost acts: seq<Act>)
      requires Valid()
      modifies this`clock, this`replies, this`nextHeartbeat, pool.gate, pool`clock
      ensures Valid() && pool.jobs == old(pool.jobs) && (old(ShutForGood()) ==> ShutForGood())
      ensures clock < old(nextHeartbeat) ==> replies == old(replies)
      ensures replies == old(replies) ==> clock < old(nextHeartbeat)
      ensures if replies == old(replies) then nextHeartbeat == old(nextHeartbeat) && acts == []
              else var stamp := nextHeartbeat - BEAT_INTERVAL;
                   && old(clock) <= stamp <= clock && old(nextHeartbeat) <= stamp
                   && replies == old(replies) + [Heartbeat(Pool.Report(pool.Value(), stamp))]
                   && |acts| == 2 && Looks(acts[0]) && acts[1] == Reported(stamp)
      ensures Does(old(pool.Value()), old(clock), acts, pool.Value(), clock)
    {
      var now := ReadClock();
      acts := [];
      if now >= nextHeartbeat {
        acts := SendHeartbeat(now);
        DoesEarlier(old(pool.Value()), old(clock), now, acts, pool.Value(), clock);
        nextHeartbeat := now + BEAT_INTERVAL;
      }
    }

    // One more command, after those that were handled since p and t.
    method HandleNext(m: Message, ghost before: seq<Message>, ghost done: seq<Act>, ghost p: Pool.PoolState,
                      ghost t: int)
      returns (ghost acts: seq<Act>)
      requires Valid() && HandlesAll(before, done) && Does(p, t, done, pool.Value(), clock)
      modifies this, pool.gate, pool`clock
      ensures Valid() && pool.jobs == old(pool.jobs)
      ensures old(ShutForGood()) || Shuts(m.payload) ==> ShutForGood()
      ensures HandlesAll(before + [m], acts) && Does(p, t, acts, pool.Value(), clock)
    {
      ghost var q, u := pool.Value(), clock;
      ghost var more := Handle(m);
      DoesJoin(p, t, done, q, u, more, pool.Value(), clock);
      HandlesOneMore(before, done, m, more);
      acts := done + more;
    }

    // The commands of one pass, in their order.
    method HandleEach(batch: seq<Message>) returns (ghost acts: seq<Act>)
      requires Valid()
      modifies this, pool.gate, pool`clock
      ensures Valid() && pool.jobs == old(pool.jobs)
      ensures old(ShutForGood()) || AnyShuts(batch) ==> ShutForGood()
      ensures HandlesAll(batch, acts) && Does(old(pool.Value()), old(clock), acts, pool.Value(), clock)
    {
      ghost var p, t := pool.Value(), clock;
      acts := [];
      for i := 0 to |batch|
        invariant Valid() && pool.jobs == old(pool.jobs)
        invariant old(ShutForGood()) || AnyShuts(batch[..i]) ==> ShutForGood()
        invariant HandlesAll(batch[..i], acts) && Does(p, t, acts, pool.Value(), clock)
      {
        acts := HandleNext(batch[i], batch[..i], acts, p, t);
        OneMoreShuts(batch[..i], batch[i]);
        assert batch[..i] + [batch[i]] == batch[..i + 1];
      }
      assert batch[..|batch|] == batch;
    }

    // One pass of the loop over what was received. A close among the commands
    // leaves the gate shut, whatever comes before or after it; and so does a
    // receive that raised.
    method Pass(received: Control.Receipt<Wire.Command>) returns (ghost acts: seq<Act>, ghost k: nat)
      requires Valid()
      modifies this, pool.gate, pool`clock
      ensures Valid() && pool.jobs == old(pool.jobs)
      ensures old(ShutForGood()) || ShutsAny(received) ==> ShutForGood()
      ensures Passes(received, acts, k) && Does(old(pool.Value()), old(clock), acts, pool.Value(), clock)
    {
      match received {
        case ProtocolError =>
          ghost var act := Shut("control_invalid", None);
          acts := [act];
        case Messages(batch) =>
          acts := HandleEach(batch);
      }
      k := |acts|;
      ghost var m, u := pool.Value(), clock;
      ghost var beat := Beat();
      DoesJoin(old(pool.Value()), old(clock), acts, m, u, beat, pool.Value(), clock);
      assert (acts + beat)[..k] == acts && (acts + beat)[k..] == beat;
      acts := acts + beat;
    }
  }

  lemma HandlesOneMore(messages: seq<Message>, acts: seq<Act>, m: Message, more: seq<Act>)
    requires HandlesAll(messages, acts) && Handles(m, more)
    ensures HandlesAll(messages + [m], acts + more)
  {
    assert (messages + [m])[..|messages|] == messages;
    assert (acts + more)[..|acts|] == acts && (acts + more)[|acts|..] == more;
    assert HandlesLast(messages + [m], acts + more, |acts|);
  }

  predicate Shuts(command: Wire.Command) {
    command.Close? || command.Stop?
  }

  predicate AnyShuts(batch: seq<Message>) {
    exists m :: m in batch && Shuts(m.payload)
  }

  lemma OneMoreShuts(batch: seq<Message>, m: Message)
    ensures AnyShuts(batch + [m]) <==> AnyShuts(batch) || Shuts(m.payload)
  {
    assert forall x :: x in batch + [m] <==> x in batch || x == m;
  }

  predicate ShutsAny(received: Control.Receipt<Wire.Command>) {
    received.ProtocolError? || AnyShuts(received.batch)
  }
}
