/**
 The per-core TCP connection pool, and the executor's tasks that share it. Tasks interleave
 only at awaits; everything a task does to the pool between two awaits is one step. A task
 whose request times out is dropped at an await and does nothing more.
 */
module TcpPool {
  import opened Wrappers

  datatype Connection = Connection(id: nat, headerSent: bool, requests: nat)

  /** `max == 0` means unlimited. */
  datatype Pool = Pool(idle: seq<Connection>, active: nat, max: nat)

  predicate CanOpenNew(p: Pool) { p.max == 0 || p.active + |p.idle| < p.max }

  function Less(active: nat): nat { if active > 0 then active - 1 else 0 }

  class ConnectionPool {
    var idle: seq<Connection>
    var active: nat
    const max: nat

    function Value(): Pool
      reads this
    {
      Pool(idle, active, max)
    }

    constructor (max: nat)
      ensures Value() == Pool([], 0, max)
    {
      idle, active, this.max := [], 0, max;
    }

    /** Longest idle first. */
    method TakeIdle() returns (c: Option<Connection>)
      modifies this
      ensures old(idle) == [] ==> c == None && Value() == old(Value())
      ensures old(idle) != [] ==> c == Some(old(idle)[0]) && Value() == Pool(old(idle)[1..], old(active) + 1, max)
    {
      if idle == [] {
        return None;
      }
      c := Some(idle[0]);
      idle := idle[1..];
      active := active + 1;
    }

    method TryOpen() returns (ok: bool)
      modifies this
      ensures ok == old(CanOpenNew(Value()))
      ensures Value() == if ok then Pool(old(idle), old(active) + 1, max) else old(Value())
    {
      ok := max == 0 || active + |idle| < max;
      if ok {
        active := active + 1;
      }
    }

    method ReturnIdle(c: Connection)
      modifies this
      ensures Value() == Pool(old(idle) + [c], Less(old(active)), max)
    {
      if active > 0 {
        active := active - 1;
      }
      idle := idle + [c];
    }

    method RecordDropped()
      modifies this
      ensures Value() == Pool(old(idle), Less(old(active)), max)
    {
      if active > 0 {
        active := active - 1;
      }
    }
  }

  // ---------------------------------------------------------------------------
  // The executor's tasks
  // ---------------------------------------------------------------------------

  datatype Task = Connecting | Using(conn: Connection)

  /** `cancelled` (history) counts tasks dropped by their timeout. */
  datatype Executor = Executor(pool: Pool, tasks: map<nat, Task>, nextId: nat, cancelled: nat)

  datatype Step =
    | Acquire(t: nat)
    | Connected(t: nat)
    | ConnectFailed(t: nat)
    | SendHeader(t: nat)
    | IoFailed(t: nat)
    | Finish(t: nat, keep: bool)
    | TimedOut(t: nat)

  predicate Enabled(e: Executor, step: Step) {
    match step
    case Acquire(t) => t !in e.tasks
    case Connected(t) => t in e.tasks && e.tasks[t].Connecting?
    case ConnectFailed(t) => t in e.tasks && e.tasks[t].Connecting?
    case SendHeader(t) => t in e.tasks && e.tasks[t].Using? && !e.tasks[t].conn.headerSent
    case IoFailed(t) => t in e.tasks && e.tasks[t].Using?
    case Finish(t, _) => t in e.tasks && e.tasks[t].Using?
    case TimedOut(t) => t in e.tasks
  }

  /** Nothing idle and no room: the request fails with "connection pool exhausted". */
  predicate Refused(p: Pool) { p.idle == [] && !CanOpenNew(p) }

  function AcquireTask(e: Executor, t: nat): Executor {
    if e.pool.idle != [] then
      e.(pool := Pool(e.pool.idle[1..], e.pool.active + 1, e.pool.max), tasks := e.tasks[t := Using(e.pool.idle[0])])
    else if CanOpenNew(e.pool) then
      e.(pool := e.pool.(active := e.pool.active + 1), tasks := e.tasks[t := Connecting])
    else e
  }

  function Dropped(e: Executor, t: nat): Executor {
    e.(pool := e.pool.(active := Less(e.pool.active)), tasks := e.tasks - {t})
  }

  function Apply(e: Executor, step: Step): (e': Executor)
    requires Enabled(e, step)
    ensures e'.pool.max == e.pool.max
  {
    match step
    case Acquire(t) => AcquireTask(e, t)
    case Connected(t) => e.(tasks := e.tasks[t := Using(Connection(e.nextId, false, 0))], nextId := e.nextId + 1)
    case ConnectFailed(t) => Dropped(e, t)
    case SendHeader(t) => e.(tasks := e.tasks[t := Using(e.tasks[t].conn.(headerSent := true))])
    case IoFailed(t) => Dropped(e, t)
    case Finish(t, keep) =>
      var c := e.tasks[t].conn;
      if keep
      then Dropped(e, t).(pool := Pool(e.pool.idle + [c.(requests := c.requests + 1)], Less(e.pool.active), e.pool.max))
      else Dropped(e, t)
    case TimedOut(t) => e.(tasks := e.tasks - {t}, cancelled := e.cancelled + 1)
  }

  datatype Acquired = Reused(conn: Connection) | Opening | Exhausted

  /** The executor's code between awaits, on its pool; each method is one step of task `t`. */
  class TcpExecutor {
    const pool: ConnectionPool

    constructor (max: nat)
      ensures fresh(pool) && pool.Value() == Start(max).pool
    {
      pool := new ConnectionPool(max);
    }

    /** An idle connection if there is one, else leave to open one, else the "exhausted" error. */
    method AcquireConnection(ghost e: Executor, ghost t: nat) returns (r: Acquired)
      requires pool.Value() == e.pool && t !in e.tasks
      modifies pool
      ensures pool.Value() == Apply(e, Acquire(t)).pool
      ensures r.Exhausted? <==> Refused(e.pool)
      ensures if old(pool.idle) != [] then r == Reused(old(pool.idle)[0]) else !r.Reused?
      ensures match r
              case Reused(c) => Apply(e, Acquire(t)).tasks == e.tasks[t := Using(c)]
              case Opening => Apply(e, Acquire(t)).tasks == e.tasks[t := Connecting]
              case Exhausted => Apply(e, Acquire(t)) == e
    {
      var idle := pool.TakeIdle();
      if idle.Some? {
        return Reused(idle.value);
      }
      var room := pool.TryOpen();
      return if room then Opening else Exhausted;
    }

    /** After the exchange: back to the pool if the policy keeps it, unless every request connects anew. */
    method Settle(c: Connection, crr: bool, keep: bool, ghost e: Executor, ghost t: nat)
      requires pool.Value() == e.pool && t in e.tasks && e.tasks[t] == Using(c)
      modifies pool
      ensures pool.Value() == Apply(e, Finish(t, !crr && keep)).pool
    {
      var used := c.(requests := c.requests + 1);
      if !crr && keep {
        pool.ReturnIdle(used);
      } else {
        pool.RecordDropped();
      }
    }
  }

  function Start(max: nat): Executor { Executor(Pool([], 0, max), map[], 0, 0) }

  predicate Run(max: nat, states: seq<Executor>, steps: seq<Step>) {
    && |states| == |steps| + 1 && states[0] == Start(max)
    && forall i :: 0 <= i < |steps| ==> Enabled(states[i], steps[i]) && states[i+1] == Apply(states[i], steps[i])
  }

  // ---------------------------------------------------------------------------
  // What every interleaving keeps
  // ---------------------------------------------------------------------------

  predicate IdleDistinct(idle: seq<Connection>, nextId: nat) {
    && (forall c :: c in idle ==> c.id < nextId)
    && (forall i, j :: 0 <= i < j < |idle| ==> idle[i].id != idle[j].id)
  }

  predicate TasksDistinct(tasks: map<nat, Task>, nextId: nat) {
    && (forall t :: t in tasks && tasks[t].Using? ==> tasks[t].conn.id < nextId)
    && (forall t, u :: t in tasks && u in tasks && t != u && tasks[t].Using? && tasks[u].Using? ==>
          tasks[t].conn.id != tasks[u].conn.id)
  }

  predicate Apart(idle: seq<Connection>, tasks: map<nat, Task>) {
    forall t, c :: t in tasks && tasks[t].Using? && c in idle ==> tasks[t].conn.id != c.id
  }

  /** No connection is in two places. */
  predicate Disjoint(e: Executor) {
    IdleDistinct(e.pool.idle, e.nextId) && TasksDistinct(e.tasks, e.nextId) && Apart(e.pool.idle, e.tasks)
  }

  predicate Counted(e: Executor) {
    && e.pool.active == |e.tasks| + e.cancelled
    && (e.pool.max > 0 ==> |e.pool.idle| + e.pool.active <= e.pool.max)
  }

  lemma SizeAdd(m: map<nat, Task>, t: nat, v: Task)
    ensures |m[t := v]| == |m| + if t in m then 0 else 1
  {
    assert m[t := v].Keys == m.Keys + {t};
    if t in m { assert m.Keys + {t} == m.Keys; }
  }

  lemma SizeRemove(m: map<nat, Task>, t: nat)
    requires t in m
    ensures |m - {t}| == |m| - 1
  {
    assert (m - {t}).Keys == m.Keys - {t};
  }

  lemma StepCounted(e: Executor, step: Step)
    requires Counted(e) && Enabled(e, step)
    ensures Counted(Apply(e, step))
  {
    if step.t in e.tasks {
      SizeRemove(e.tasks, step.t);
    }
    if step.t in Apply(e, step).tasks {
      SizeAdd(e.tasks, step.t, Apply(e, step).tasks[step.t]);
    }
  }

  lemma CheckOut(e: Executor, t: nat)
    requires Disjoint(e) && t !in e.tasks && e.pool.idle != []
    ensures Disjoint(AcquireTask(e, t))
  {
    var idle := e.pool.idle;
    RestApart(idle, e.nextId);
    var rest, first := idle[1..], idle[0];
    assert first in idle && forall c :: c in rest ==> c in idle;
  }

  lemma RestApart(idle: seq<Connection>, nextId: nat)
    requires IdleDistinct(idle, nextId) && idle != []
    ensures IdleDistinct(idle[1..], nextId) && forall c :: c in idle[1..] ==> c.id != idle[0].id
  {
    forall c | c in idle[1..] ensures c in idle && c.id != idle[0].id {
      var i :| 0 <= i < |idle[1..]| && idle[1..][i] == c;
      assert idle[i + 1] == c;
    }
  }

  lemma CheckIn(e: Executor, t: nat, c: Connection)
    requires Disjoint(e) && t in e.tasks && e.tasks[t].Using? && c.id == e.tasks[t].conn.id
    ensures Disjoint(e.(pool := e.pool.(idle := e.pool.idle + [c]), tasks := e.tasks - {t}))
  {
    var idle := e.pool.idle + [c];
    forall i, j | 0 <= i < j < |idle| ensures idle[i].id != idle[j].id {
      assert e.pool.idle[i] in e.pool.idle;
    }
  }

  lemma Replace(e: Executor, t: nat, c: Connection, nextId: nat)
    requires Disjoint(e) && t in e.tasks && e.nextId <= nextId && c.id < nextId
    requires c.id >= e.nextId || (e.tasks[t].Using? && e.tasks[t].conn.id == c.id)
    ensures Disjoint(e.(tasks := e.tasks[t := Using(c)], nextId := nextId))
  {
  }

  lemma StepDisjoint(e: Executor, step: Step)
    requires Disjoint(e) && Enabled(e, step)
    ensures Disjoint(Apply(e, step))
  {
    var t := step.t;
    match step
    case Acquire(_) => if e.pool.idle != [] { CheckOut(e, t); }
    case Connected(_) => Replace(e, t, Connection(e.nextId, false, 0), e.nextId + 1);
    case SendHeader(_) => Replace(e, t, e.tasks[t].conn.(headerSent := true), e.nextId);
    case Finish(_, keep) =>
      var c := e.tasks[t].conn;
      if keep { CheckIn(e, t, c.(requests := c.requests + 1)); }
    case _ =>
  }

  lemma {:induction false} RunInv(max: nat, states: seq<Executor>, steps: seq<Step>, i: nat)
    requires Run(max, states, steps) && i < |states|
    ensures Counted(states[i]) && Disjoint(states[i]) && states[i].pool.max == max
  {
    if i > 0 {
      hide Counted, Disjoint, Enabled, Apply;
      RunInv(max, states, steps, i - 1);
      assert Enabled(states[i-1], steps[i-1]) && states[i-1+1] == Apply(states[i-1], steps[i-1]);
      StepCounted(states[i-1], steps[i-1]);
      StepDisjoint(states[i-1], steps[i-1]);
    }
  }

  // ---------------------------------------------------------------------------
  // Theorems
  // ---------------------------------------------------------------------------

  /**
   Over every interleaving: `active` counts tasks connecting or holding a connection plus the
   cancelled ones, so a release never finds it zero; pooled, checked-out and cancelled
   connections together never exceed a nonzero limit; no connection is in two places.
   */
  lemma PoolSafety(max: nat, states: seq<Executor>, steps: seq<Step>, i: nat)
    requires Run(max, states, steps) && i < |states|
    ensures var e := states[i];
            && e.pool.active == |e.tasks| + e.cancelled
            && (max > 0 ==> |e.pool.idle| + |e.tasks| + e.cancelled <= max)
            && Disjoint(e)
    ensures i < |steps| && !steps[i].Acquire? ==> states[i].pool.active > 0
  {
    RunInv(max, states, steps, i);
    if i < |steps| && !steps[i].Acquire? {
      SizeRemove(states[i].tasks, steps[i].t);
    }
  }

  /** A request is refused exactly when nothing is idle and live plus cancelled tasks fill the limit. */
  lemma RefusedWhen(max: nat, states: seq<Executor>, steps: seq<Step>, i: nat)
    requires Run(max, states, steps) && i < |states|
    ensures var e := states[i]; Refused(e.pool) <==> max > 0 && e.pool.idle == [] && |e.tasks| + e.cancelled == max
  {
    RunInv(max, states, steps, i);
  }

  lemma {:induction false} CancelledGrows(max: nat, states: seq<Executor>, steps: seq<Step>, i: nat, j: nat)
    requires Run(max, states, steps) && i <= j < |states|
    ensures states[i].cancelled <= states[j].cancelled
    decreases j - i
  {
    if i < j {
      CancelledGrows(max, states, steps, i, j - 1);
      assert states[j-1+1] == Apply(states[j-1], steps[j-1]);
    }
  }

  /**
   A timed-out task's slot is never given back: once as many tasks as the limit have been
   cancelled, every later state of the run holds no connection and refuses every request.
   */
  lemma TimeoutsExhaustPool(max: nat, states: seq<Executor>, steps: seq<Step>, i: nat, j: nat)
    requires Run(max, states, steps) && i <= j < |states| && max > 0
    requires states[i].cancelled >= max
    ensures var e := states[j]; Refused(e.pool) && e.tasks == map[] && e.pool.idle == []
  {
    CancelledGrows(max, states, steps, i, j);
    RunInv(max, states, steps, j);
    assert |states[j].tasks| == 0;
  }

  /** One task ends with an error and gives its slot back. */
  lemma SlotReturned(e: Executor) returns (step: Step)
    requires Counted(e) && e.pool.max > 0 && e.cancelled < e.pool.max && Refused(e.pool)
    ensures Enabled(e, step) && !Refused(Apply(e, step).pool)
  {
    assert |e.tasks| > 0;
    var t :| t in e.tasks;
    step := if e.tasks[t].Connecting? then ConnectFailed(t) else IoFailed(t);
  }

  /** In any reachable state requests are refused whatever happens next exactly when the limit is all cancelled tasks. */
  lemma ShutWhen(max: nat, states: seq<Executor>, steps: seq<Step>, i: nat)
    requires Run(max, states, steps) && i < |states|
    ensures var e := states[i];
            max > 0 && e.cancelled == max <==>
            Refused(e.pool) && forall step :: Enabled(e, step) ==> Refused(Apply(e, step).pool)
  {
    RunInv(max, states, steps, i);
    hide Run, Disjoint;
    var e := states[i];
    if max > 0 && e.cancelled == max {
      assert |e.tasks| == 0;
    } else if Refused(e.pool) {
      var step := SlotReturned(e);
    }
  }

  lemma Extend(max: nat, states: seq<Executor>, steps: seq<Step>, step: Step)
    returns (longer: seq<Executor>, more: seq<Step>)
    requires Run(max, states, steps) && Enabled(states[|steps|], step)
    ensures more == steps + [step] && longer == states + [Apply(states[|steps|], step)] && Run(max, longer, more)
  {
    hide Enabled, Apply;
    longer, more := states + [Apply(states[|steps|], step)], steps + [step];
    forall i | 0 <= i < |more| ensures Enabled(longer[i], more[i]) && longer[i+1] == Apply(longer[i], more[i]) {
      if i < |steps| {
        assert longer[i] == states[i] && longer[i+1] == states[i+1] && more[i] == steps[i];
      }
    }
  }

  /** A run of `n` requests, each timing out while it connects. */
  lemma {:induction false} TimeOuts(max: nat, n: nat) returns (states: seq<Executor>, steps: seq<Step>)
    requires n <= max
    ensures Run(max, states, steps) && |steps| == 2 * n && states[|steps|] == Executor(Pool([], n, max), map[], 0, n)
  {
    if n == 0 {
      states, steps := [Start(max)], [];
    } else {
      states, steps := TimeOuts(max, n - 1);
      states, steps := Extend(max, states, steps, Acquire(0));
      states, steps := Extend(max, states, steps, TimedOut(0));
      assert map[0 := Connecting] - {0} == map[];
    }
  }

  /** Every limit can be used up: as many timed-out connects leave the pool empty and refusing for good. */
  lemma TimeoutsShutPool(max: nat) returns (states: seq<Executor>, steps: seq<Step>)
    requires max > 0
    ensures Run(max, states, steps) && |steps| == 2 * max && states[|steps|].cancelled == max
    ensures var e := states[|steps|];
            Refused(e.pool) && forall step :: Enabled(e, step) ==> Refused(Apply(e, step).pool)
  {
    states, steps := TimeOuts(max, max);
    hide Refused, Enabled, Apply;
    ShutWhen(max, states, steps, |steps|);
  }

  // ---------------------------------------------------------------------------
  // Reuse
  // ---------------------------------------------------------------------------

  /** The connection a step gives back to the pool, one request older. */
  function ReturnedBy(e: Executor, step: Step): seq<Connection> {
    if step.Finish? && step.keep && step.t in e.tasks && e.tasks[step.t].Using? then
      [Connection(e.tasks[step.t].conn.id, e.tasks[step.t].conn.headerSent, e.tasks[step.t].conn.requests + 1)]
    else []
  }

  /** The pooled connection a step checks out. */
  function ReusedBy(e: Executor, step: Step): seq<Connection> {
    if step.Acquire? && e.pool.idle != [] then [e.pool.idle[0]] else []
  }

  function Returned(states: seq<Executor>, steps: seq<Step>, i: nat): seq<Connection>
    requires i <= |steps| < |states|
  {
    if i == 0 then [] else Returned(states, steps, i - 1) + ReturnedBy(states[i-1], steps[i-1])
  }

  function Reuses(states: seq<Executor>, steps: seq<Step>, i: nat): seq<Connection>
    requires i <= |steps| < |states|
  {
    if i == 0 then [] else Reuses(states, steps, i - 1) + ReusedBy(states[i-1], steps[i-1])
  }

  lemma IdleStep(e: Executor, step: Step)
    requires Enabled(e, step)
    ensures e.pool.idle + ReturnedBy(e, step) == ReusedBy(e, step) + Apply(e, step).pool.idle
    ensures step.Acquire? && e.pool.idle != [] ==> Apply(e, step).tasks == e.tasks[step.t := Using(e.pool.idle[0])]
  {
  }

  lemma Regroup(a: seq<Connection>, q: seq<Connection>, x: seq<Connection>, y: seq<Connection>, q': seq<Connection>)
    requires q + x == y + q'
    ensures a + q + x == a + y + q'
  {
    assert a + q + x == a + (q + x);
    assert a + y + q' == a + (y + q');
  }

  /** On every run the pool holds, longest idle first, every connection given back that no request has reused. */
  lemma {:induction false} IdleFifo(max: nat, states: seq<Executor>, steps: seq<Step>, i: nat)
    requires Run(max, states, steps) && i < |states| == |steps| + 1
    ensures Returned(states, steps, i) == Reuses(states, steps, i) + states[i].pool.idle
  {
    if i > 0 {
      assert Enabled(states[i-1], steps[i-1]) && states[i-1+1] == Apply(states[i-1], steps[i-1]);
      hide Run, Enabled, Apply, ReturnedBy, ReusedBy;
      IdleFifo(max, states, steps, i - 1);
      IdleStep(states[i-1], steps[i-1]);
      Regroup(Reuses(states, steps, i - 1), states[i-1].pool.idle, ReturnedBy(states[i-1], steps[i-1]),
              ReusedBy(states[i-1], steps[i-1]), states[i].pool.idle);
    }
  }

  /** The step is connection `id` finishing a request and being kept, or sending its header. */
  predicate Touches(e: Executor, step: Step, id: nat) {
    step.t in e.tasks && e.tasks[step.t].Using? && e.tasks[step.t].conn.id == id
  }

  function Uses(states: seq<Executor>, steps: seq<Step>, i: nat, id: nat): nat
    requires i <= |steps| < |states|
  {
    if i == 0 then 0
    else Uses(states, steps, i - 1, id) +
         if steps[i-1].Finish? && steps[i-1].keep && Touches(states[i-1], steps[i-1], id) then 1 else 0
  }

  function Headers(states: seq<Executor>, steps: seq<Step>, i: nat, id: nat): nat
    requires i <= |steps| < |states|
  {
    if i == 0 then 0
    else Headers(states, steps, i - 1, id) + if steps[i-1].SendHeader? && Touches(states[i-1], steps[i-1], id) then 1 else 0
  }

  /** The connection is pooled or in use. */
  predicate Live(e: Executor, c: Connection) {
    c in e.pool.idle || exists t :: t in e.tasks && e.tasks[t] == Using(c)
  }

  /** A connection no request touches was live before the step, as it is; the touched one differs by its use. */
  predicate Follows(e: Executor, step: Step, c0: Connection, c: Connection) {
    && c0.id == c.id
    && c.requests == c0.requests + (if step.Finish? && step.keep && Touches(e, step, c.id) then 1 else 0)
    && (c.headerSent <==> c0.headerSent || (step.SendHeader? && Touches(e, step, c.id)))
  }

  /** Only `Connected` makes a connection live; it is unused then. */
  predicate Opened(e: Executor, step: Step, c: Connection) {
    step.Connected? && c == Connection(e.nextId, false, 0) && !Touches(e, step, c.id)
  }

  lemma InUse(e: Executor, t: nat, c: Connection)
    requires t in e.tasks && e.tasks[t] == Using(c)
    ensures Live(e, c)
  {
  }

  lemma IdleBefore(e: Executor, step: Step, c: Connection) returns (c0: Connection)
    requires Enabled(e, step) && Disjoint(e) && c in Apply(e, step).pool.idle
    ensures Live(e, c0) && Follows(e, step, c0, c)
  {
    if c in e.pool.idle {
      c0 := c;
    } else {
      c0 := e.tasks[step.t].conn;
      InUse(e, step.t, c0);
    }
  }

  lemma UsedBefore(e: Executor, step: Step, t: nat, c: Connection) returns (c0: Connection)
    requires Enabled(e, step) && Disjoint(e) && t in Apply(e, step).tasks && Apply(e, step).tasks[t] == Using(c)
    ensures Opened(e, step, c) || (Live(e, c0) && Follows(e, step, c0, c))
  {
    if t in e.tasks && e.tasks[t].Using? {
      c0 := e.tasks[t].conn;
      InUse(e, t, c0);
    } else {
      c0 := c;
    }
  }

  lemma Predecessor(e: Executor, step: Step, c: Connection) returns (c0: Connection)
    requires Enabled(e, step) && Disjoint(e) && Live(Apply(e, step), c)
    ensures Opened(e, step, c) || (Live(e, c0) && Follows(e, step, c0, c))
  {
    hide Disjoint, Follows, Opened, Apply, Enabled;
    if c in Apply(e, step).pool.idle {
      c0 := IdleBefore(e, step, c);
    } else {
      var t :| t in Apply(e, step).tasks && Apply(e, step).tasks[t] == Using(c);
      c0 := UsedBefore(e, step, t, c);
    }
  }

  lemma NotYet(e: Executor, step: Step, id: nat)
    requires Disjoint(e) && id >= e.nextId
    ensures !Touches(e, step, id)
  {
  }

  lemma {:induction false} Unused(max: nat, states: seq<Executor>, steps: seq<Step>, i: nat, id: nat)
    requires Run(max, states, steps) && i < |states| == |steps| + 1 && id >= states[i].nextId
    ensures Uses(states, steps, i, id) == 0 && Headers(states, steps, i, id) == 0
  {
    if i > 0 {
      assert Enabled(states[i-1], steps[i-1]) && states[i-1+1] == Apply(states[i-1], steps[i-1]);
      RunInv(max, states, steps, i - 1);
      NotYet(states[i-1], steps[i-1], id);
      hide Run, Disjoint, Touches;
      Unused(max, states, steps, i - 1, id);
    }
  }

  /**
   On every run a live connection counts exactly the requests it has finished and been kept after,
   and is marked as having sent its protocol header exactly when it has.
   */
  lemma {:induction false} ConnectionHistory(max: nat, states: seq<Executor>, steps: seq<Step>, i: nat, c: Connection)
    requires Run(max, states, steps) && i < |states| == |steps| + 1 && Live(states[i], c)
    ensures c.requests == Uses(states, steps, i, c.id) && (c.headerSent <==> Headers(states, steps, i, c.id) > 0)
  {
    if i > 0 {
      assert Enabled(states[i-1], steps[i-1]) && states[i-1+1] == Apply(states[i-1], steps[i-1]);
      hide Run, Live, Disjoint, Touches, Enabled, Apply;
      RunInv(max, states, steps, i - 1);
      var c0 := Predecessor(states[i-1], steps[i-1], c);
      if Live(states[i-1], c0) && Follows(states[i-1], steps[i-1], c0, c) {
        ConnectionHistory(max, states, steps, i - 1, c0);
      } else {
        Unused(max, states, steps, i - 1, c.id);
      }
    }
  }
}
