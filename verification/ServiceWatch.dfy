/**
 The shared registry watch of client/servicewatch.go as a state machine.

 Every region that runs under `serviceWatcher.lock` is one atomic step on a `Table`. What happens
 between two regions is kept as explicit program state: an `Add` that has unlocked and still owes a
 callback or a `go watchLoop`, the program counter of every watch loop, and the program counter of
 the cleanup goroutine. The registry, the timers and the appliers' owners choose the next event.
 */
module ServiceWatch {
  import opened Wrappers

  type Endpoint = string
  type RegId = string            // the uuid under which an applier is registered
  type Applier = nat             // identity of an Applier object
  type Watcher = nat             // identity of a registry.Watcher
  type StatusId = nat            // identity of a *watcherStatus: its index in Table.statuses
  type Instances = seq<string>

  /**
   `endpoint` is the endpoint for which the status was created; watchLoop gets it as a parameter.
   `write` counts the writes of the cache, so that one write can be told from another with equal contents.
   */
  datatype Status = Status(
    endpoint: Endpoint, watcher: Option<Watcher>, cancelled: bool, cache: Instances, write: nat)

  /** One write of one status's cache. */
  datatype Origin = Origin(sid: StatusId, write: nat)

  datatype Registration = Registration(id: RegId, applier: Applier)

  /** What `serviceWatcher.lock` guards, together with the status objects it hands out. */
  datatype Table = Table(
    statuses: seq<Status>,
    current: map<Endpoint, StatusId>,
    appliers: map<Endpoint, map<RegId, Applier>>)
  {
    predicate IsCurrent(sid: StatusId) {
      sid < |statuses| && statuses[sid].endpoint in current && current[statuses[sid].endpoint] == sid
    }

    function Registered(ep: Endpoint): map<RegId, Applier> {
      if ep in appliers then appliers[ep] else map[]
    }

    function OriginOf(sid: StatusId): Origin {
      Origin(sid, if sid < |statuses| then statuses[sid].write else 0)
    }

    function OriginFor(ep: Endpoint): Origin {
      OriginOf(if ep in current then current[ep] else |statuses|)
    }

    function CachedFor(ep: Endpoint): Instances {
      if ep in current && current[ep] < |statuses| then statuses[current[ep]].cache else []
    }
  }

  /******* Lock regions *******/

  /** Add's region: create the status if the endpoint has none, then register the applier if there is one. */
  function AddRegion(t: Table, ep: Endpoint, reg: Option<Registration>): Table {
    var t1 :=
      if ep in t.current then t
      else t.(statuses := t.statuses + [Status(ep, None, false, [], 0)], current := t.current[ep := |t.statuses|]);
    if reg.None? then t1
    else t1.(appliers := t1.appliers[ep := t1.Registered(ep)[reg.value.id := reg.value.applier]])
  }

  function SetWatcherRegion(t: Table, sid: StatusId, w: Watcher): Table {
    if t.IsCurrent(sid) then t.(statuses := t.statuses[sid := t.statuses[sid].(watcher := Some(w))]) else t
  }

  function SetSelectedCacheRegion(t: Table, sid: StatusId, services: Instances): Table {
    if t.IsCurrent(sid)
    then t.(statuses := t.statuses[sid := t.statuses[sid].(cache := services, write := t.statuses[sid].write + 1)])
    else t
  }

  function RemoveWatcherRegion(t: Table, sid: StatusId): Table {
    if t.IsCurrent(sid) then t.(current := t.current - {t.statuses[sid].endpoint}) else t
  }

  /** What doCallback calls, and with what, while it holds the read lock. */
  function CallbackRegion(t: Table, ep: Endpoint, services: Instances, origin: Origin): set<Delivery> {
    set id | id in t.Registered(ep) :: Delivery(t.Registered(ep)[id], services, origin)
  }

  /** First cleanup region of an endpoint: the ids whose applier is cancelled. */
  function CollectRegion(t: Table, ep: Endpoint, cancelled: set<Applier>): set<RegId> {
    set id | id in t.Registered(ep) && t.Registered(ep)[id] in cancelled
  }

  /** Second cleanup region: delete the collected ids. */
  function DeleteRegion(t: Table, ep: Endpoint, ids: set<RegId>): Table {
    if ep in t.appliers then t.(appliers := t.appliers[ep := t.appliers[ep] - ids]) else t
  }

  /** Third cleanup region, the locked half of stopWatcherIfUnused. */
  function StopRegion(t: Table, ep: Endpoint): Table {
    if |t.Registered(ep)| != 0 then t
    else t.(appliers := t.appliers - {ep}, current := t.current - {ep})
  }

  /** The status stopWatcherIfUnused will cancel after it unlocks, if any. */
  function StopTarget(t: Table, ep: Endpoint): Option<StatusId> {
    if |t.Registered(ep)| == 0 && ep in t.current then Some(t.current[ep]) else None
  }

  /******* Goroutines *******/

  /** A call of `applier.Callback(instances)`, made because of the cache write `origin`. */
  datatype Delivery = Delivery(applier: Applier, instances: Instances, origin: Origin)

  datatype LoopPc =
    | Top                                // about to test ctx.Err()
    | Watching                           // inside discovery.Watch
    | Installing(watcher: Watcher)       // Watch returned; about to call setWatcher
    | Receiving                          // inside watcher.Next
    | Applying(services: Instances)      // Next returned; about to cache
    | Delivering(services: Instances)    // cached and unlocked; about to run doCallback
    | Failing(canceled: bool)            // Watch or Next failed; does the error say context.Canceled?
    | Waiting                            // inside waitForRetry
    | Removing                           // about to call removeWatcher
    | Ended

  datatype Loop = Loop(sid: StatusId, pc: LoopPc)

  datatype CleanerPc =
    | Sleeping
    | Scanning(todo: seq<Endpoint>)
    | Collected(ep: Endpoint, ids: set<RegId>, todo: seq<Endpoint>)
    | Rechecking(ep: Endpoint, todo: seq<Endpoint>)
    | Cancelling(sid: StatusId, todo: seq<Endpoint>)   // unlocked; about to call status.cancel()

  /**
   `spawns` holds the statuses whose `Add` has not reached `go watchLoop` yet, `owed` the cached
   callbacks that an `Add` has not made yet. `made` records every Callback ever called and `view`
   the list each applier was called with last. `used` are the uuids handed out so far.
   */
  datatype State = State(
    t: Table,
    spawns: multiset<StatusId>,
    loops: seq<Loop>,
    owed: multiset<Delivery>,
    cleaner: CleanerPc,
    cancelled: set<Applier>,
    used: set<RegId>,
    made: set<Delivery>,
    view: map<Applier, Instances>)

  /** What a loop gets from outside: nothing, the result of Watch or Next, or the end of a wait. */
  datatype Input =
    | Tick
    | Watched(watcher: Watcher)
    | Failed(canceled: bool)
    | Received(services: Instances)
    | RetryElapsed
    | ContextDone

  datatype Event =
    | Add(ep: Endpoint, reg: Option<Registration>)
    | AddCallback(d: Delivery)
    | Spawn(sid: StatusId)
    | Cancel(applier: Applier)
    | LoopStep(i: nat, input: Input)
    | CleanupWakes(endpoints: seq<Endpoint>)
    | CleanupStep

  const Init := State(Table([], map[], map[]), multiset{}, [], multiset{}, Sleeping, {}, {}, {}, map[])

  /** Every index that a goroutine or the table holds denotes a status. */
  ghost predicate Wf(s: State) {
    && (forall i :: 0 <= i < |s.loops| ==> s.loops[i].sid < |s.t.statuses|)
    && (forall sid :: sid in s.spawns ==> sid < |s.t.statuses|)
    && (forall ep :: ep in s.t.current ==>
          s.t.current[ep] < |s.t.statuses| && s.t.statuses[s.t.current[ep]].endpoint == ep)
    && (s.cleaner.Cancelling? ==> s.cleaner.sid < |s.t.statuses|)
  }

  ghost predicate InputFits(s: State, i: nat, input: Input)
    requires Wf(s) && i < |s.loops|
  {
    match s.loops[i].pc
    case Watching => input.Watched? || input.Failed?
    case Receiving => input.Received? || input.Failed?
    case Waiting => input.RetryElapsed? || (input.ContextDone? && s.t.statuses[s.loops[i].sid].cancelled)
    case Ended => false
    case _ => input.Tick?
  }

  ghost predicate Enabled(s: State, e: Event)
    requires Wf(s)
  {
    match e
    case Add(_, reg) => reg.Some? ==> reg.value.id !in s.used
    case AddCallback(d) => d in s.owed
    case Spawn(sid) => sid in s.spawns
    case Cancel(_) => true
    case LoopStep(i, input) => i < |s.loops| && InputFits(s, i, input)
    case CleanupWakes(endpoints) =>
      s.cleaner.Sleeping? && forall ep :: ep in endpoints <==> ep in s.t.appliers
    case CleanupStep => !s.cleaner.Sleeping?
  }

  /** The table after one step of the loop at `pc`. */
  function LoopTable(t: Table, sid: StatusId, pc: LoopPc): Table {
    match pc
    case Installing(w) => SetWatcherRegion(t, sid, w)
    case Applying(services) => if services == [] then t else SetSelectedCacheRegion(t, sid, services)
    case Removing => RemoveWatcherRegion(t, sid)
    case _ => t
  }

  /** Where the loop stands after that step. */
  function LoopPcAfter(t: Table, sid: StatusId, pc: LoopPc, input: Input): LoopPc
    requires sid < |t.statuses|
  {
    var cancelled := t.statuses[sid].cancelled;
    match pc
    case Top => if cancelled then Removing else Watching
    case Watching => if input.Watched? then Installing(input.watcher) else Failing(input.Failed? && input.canceled)
    case Installing(_) => if t.IsCurrent(sid) then Receiving else Ended
    case Receiving => if input.Received? then Applying(input.services) else Failing(input.Failed? && input.canceled)
    case Applying(services) => if services != [] && t.IsCurrent(sid) then Delivering(services) else Receiving
    case Delivering(_) => Receiving
    case Failing(canceled) => if canceled || cancelled then Removing else Waiting
    case Waiting => if input.RetryElapsed? then Top else Removing
    case Removing => Ended
    case Ended => Ended
  }

  function ViewAfter(
      view: map<Applier, Instances>, calls: set<Delivery>, services: Instances): map<Applier, Instances>
  {
    view + map d | d in calls :: d.applier := services
  }

  /** The calls that a loop about to run doCallback will make. */
  function LoopCalls(t: Table, loop: Loop): set<Delivery>
    requires loop.pc.Delivering? && loop.sid < |t.statuses|
  {
    CallbackRegion(t, t.statuses[loop.sid].endpoint, loop.pc.services, t.OriginOf(loop.sid))
  }

  ghost function LoopNext(s: State, i: nat, input: Input): (r: State)
    requires Wf(s) && i < |s.loops| && InputFits(s, i, input)
    ensures Wf(r)
  {
    var loop := s.loops[i];
    var calls := if loop.pc.Delivering? then LoopCalls(s.t, loop) else {};
    s.(t := LoopTable(s.t, loop.sid, loop.pc),
       loops := s.loops[i := loop.(pc := LoopPcAfter(s.t, loop.sid, loop.pc, input))],
       made := s.made + calls,
       view := if loop.pc.Delivering? then ViewAfter(s.view, calls, loop.pc.services) else s.view)
  }

  ghost function CleanerNext(s: State): (r: State)
    requires Wf(s) && !s.cleaner.Sleeping?
    ensures Wf(r)
  {
    match s.cleaner
    case Scanning(todo) =>
      if todo == [] then s.(cleaner := Sleeping)
      else
        var ids := CollectRegion(s.t, todo[0], s.cancelled);
        s.(cleaner := if ids == {} then Scanning(todo[1..]) else Collected(todo[0], ids, todo[1..]))
    case Collected(ep, ids, todo) => s.(t := DeleteRegion(s.t, ep, ids), cleaner := Rechecking(ep, todo))
    case Rechecking(ep, todo) =>
      var target := StopTarget(s.t, ep);
      s.(t := StopRegion(s.t, ep),
         cleaner := if target.Some? then Cancelling(target.value, todo) else Scanning(todo))
    case Cancelling(sid, todo) =>
      s.(t := s.t.(statuses := s.t.statuses[sid := s.t.statuses[sid].(cancelled := true)]), cleaner := Scanning(todo))
  }

  ghost function AddNext(s: State, ep: Endpoint, reg: Option<Registration>): (r: State)
    requires Wf(s) && Enabled(s, Add(ep, reg))
    ensures Wf(r)
  {
    var existed := ep in s.t.current;
    var cached := s.t.CachedFor(ep);
    s.(t := AddRegion(s.t, ep, reg),
       spawns := if existed then s.spawns else s.spawns + multiset{|s.t.statuses|},
       owed := if existed && cached != [] && reg.Some?
               then s.owed + multiset{Delivery(reg.value.applier, cached, s.t.OriginFor(ep))} else s.owed,
       used := if reg.Some? then s.used + {reg.value.id} else s.used)
  }

  ghost function Step(s: State, e: Event): (r: State)
    requires Wf(s) && Enabled(s, e)
    ensures Wf(r)
  {
    match e
    case Add(ep, reg) => AddNext(s, ep, reg)
    case AddCallback(d) =>
      s.(owed := s.owed - multiset{d}, made := s.made + {d}, view := s.view[d.applier := d.instances])
    case Spawn(sid) => s.(spawns := s.spawns - multiset{sid}, loops := s.loops + [Loop(sid, Top)])
    case Cancel(a) => s.(cancelled := s.cancelled + {a})
    case LoopStep(i, input) => LoopNext(s, i, input)
    case CleanupWakes(endpoints) => s.(cleaner := Scanning(endpoints))
    case CleanupStep => CleanerNext(s)
  }

  /******* Invariants *******/

  /** Each status has exactly one watch loop, or an Add that is about to start it. */
  ghost predicate OneLoopEach(s: State) {
    && (forall i, j :: 0 <= i < j < |s.loops| ==> s.loops[i].sid != s.loops[j].sid)
    && (forall i :: 0 <= i < |s.loops| ==> s.loops[i].sid !in s.spawns)
    && (forall sid :: sid in s.spawns ==> s.spawns[sid] == 1)
    && (forall sid :: 0 <= sid < |s.t.statuses| ==> sid in s.spawns || HasLoop(s, sid))
  }

  ghost predicate HasLoop(s: State, sid: StatusId) {
    exists i :: 0 <= i < |s.loops| && s.loops[i].sid == sid
  }

  /** The loop of `sid` has cached `services` and not yet run doCallback. */
  ghost predicate LoopOwes(s: State, sid: StatusId, services: Instances) {
    exists i :: 0 <= i < |s.loops| && s.loops[i] == Loop(sid, Delivering(services))
  }

  ghost predicate DeliveringIsCached(s: State)
    requires Wf(s)
  {
    forall i :: 0 <= i < |s.loops| && s.loops[i].pc.Delivering? ==>
      s.t.statuses[s.loops[i].sid].cache == s.loops[i].pc.services != []
  }

  /** The callback for the latest cache write was made on the applier, or its Add or the current loop owes it. */
  ghost predicate Informed(s: State, ep: Endpoint, id: RegId)
    requires Wf(s) && ep in s.t.current && id in s.t.Registered(ep)
  {
    var a, sid := s.t.Registered(ep)[id], s.t.current[ep];
    var c := s.t.statuses[sid].cache;
    var d := Delivery(a, c, s.t.OriginOf(sid));
    c != [] ==> d in s.made || d in s.owed || LoopOwes(s, sid, c)
  }

  ghost predicate AllInformed(s: State)
    requires Wf(s)
  {
    forall ep, id :: ep in s.t.current && id in s.t.Registered(ep) ==> Informed(s, ep, id)
  }

  /** Ids awaiting deletion were handed out before, and those still registered belong to cancelled appliers. */
  ghost predicate CleanupIsJustified(s: State) {
    && (forall ep, id :: id in s.t.Registered(ep) ==> id in s.used)
    && (s.cleaner.Collected? ==>
          forall id :: id in s.cleaner.ids ==>
            id in s.used
            && (id in s.t.Registered(s.cleaner.ep) ==> s.t.Registered(s.cleaner.ep)[id] in s.cancelled))
  }

  ghost predicate Inv(s: State) {
    Wf(s) && OneLoopEach(s) && DeliveringIsCached(s) && AllInformed(s) && CleanupIsJustified(s)
  }
}
