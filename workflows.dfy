/** `snapshots_creater` and `snapshots_cleaner`: the loops over the instance
    list that stop, snapshot and restart each instance, or delete its old
    snapshots.  Both tool revisions run the same loops; they differ only in
    what `operation_complete` returns, and the loops only test it for truth
    (`Poller.RevisionsAgreeOnTruth`).

    The local `snap_create` is bound only when the stop wait was truthy, yet
    read in any case: on the first instance that reads it unbound the loop
    raises `UnboundLocalError`; on a later one it still holds the id of an
    earlier instance's snapshot.  `Binding` carries it from one instance to
    the next. */
module Workflows {
  import opened Base
  import opened Snapshots
  import opened Api
  import opened Compute
  import Poller

  /** The local variable `snap_create`. */
  datatype Binding = Unbound | Bound(op: Option<OpId>)

  /** How a workflow (or the whole program) ends. */
  datatype Status = Finished | Quit | Crashed(error: Exception)

  /** The world, `snap_create` and the status after some instances. */
  datatype Step = Step(world: World, binding: Binding, status: Status)

  /** The world and the status after a cleaning run. */
  datatype Ended = Ended(world: World, status: Status)

  /** A wait whose poll yielded no status raises `AttributeError`. */
  function AfterWait(o: Poller.Outcome): Status
  {
    if o == Poller.Failed then Crashed(AttributeError) else Finished
  }

  // ----- snapshots_creater -----

  /** An instance already `STOPPED`: create a snapshot and wait for it;
      `snap_create` is left as it was. */
  function CreateStopped(sc: Script, w: World, id: string, b: Binding): Step
    requires id in w.vms
  {
    var create := CreateSnapshot(sc, w, id);
    var wait := Wait(sc, create.world, create.value);
    Step(wait.world, b, AfterWait(wait.value))
  }

  /** `snap_create = vm.create_snapshot()` */
  function BindSnapshot(sc: Script, w: World, id: string): (s: Step)
    requires id in w.vms
    ensures s.world.vms == w.vms && s.binding.Bound?
  {
    var create := CreateSnapshot(sc, w, id);
    Step(create.world, Bound(create.value), Finished)
  }

  /** After `snap_create` is read: wait for it, and, if that wait was truthy
      and the instance is not `RUNNING`, start it and wait again. */
  function FinishRunning(sc: Script, w: World, id: string, b: Binding): Step
    requires id in w.vms && b.Bound?
  {
    var wait := Wait(sc, w, b.op);
    if wait.value == Poller.Failed then Step(wait.world, b, Crashed(AttributeError))
    else if !Poller.Truthy(wait.value) || wait.world.vms[id].status == "RUNNING" then Step(wait.world, b, Finished)
    else
      var start := Start(sc, wait.world, id);
      var started := Wait(sc, start.world, start.value);
      Step(started.world, b, AfterWait(started.value))
  }

  /** An instance not `STOPPED`: stop, wait, snapshot only if the wait was
      truthy, then wait on `snap_create` whatever it holds. */
  function CreateRunning(sc: Script, w: World, id: string, b: Binding): Step
    requires id in w.vms
  {
    var stop := Stop(sc, w, id);
    var wait := Wait(sc, stop.world, stop.value);
    if wait.value == Poller.Failed then Step(wait.world, b, Crashed(AttributeError))
    else
      var snapped := if Poller.Truthy(wait.value) then BindSnapshot(sc, wait.world, id) else Step(wait.world, b, Finished);
      if snapped.binding == Unbound then Step(snapped.world, Unbound, Crashed(UnboundLocalError))
      else FinishRunning(sc, snapped.world, id, snapped.binding)
  }

  /** One instance of the loop; an instance whose `get_data()` is falsy is
      skipped. */
  function CreateOne(sc: Script, w: World, id: string, b: Binding): Step
  {
    if id !in w.vms then Step(w, b, Finished)
    else if w.vms[id].status != "STOPPED" then CreateRunning(sc, w, id, b)
    else CreateStopped(sc, w, id, b)
  }

  /** `snapshots_creater()` over `ids`, with `snap_create` as bound so far; the
      first exception ends the loop. */
  function Creator(sc: Script, w: World, ids: seq<string>, b: Binding): Step
    decreases |ids|
  {
    if ids == [] then Step(w, b, Finished)
    else
      var s := CreateOne(sc, w, ids[0], b);
      if s.status != Finished then s else Creator(sc, s.world, ids[1..], s.binding)
  }

  /** The body of the loop of `snapshots_creater` for one instance. */
  method CreateFor(vm: Instance, snapCreate: Binding) returns (binding: Binding, status: Status)
    modifies vm.cloud
    ensures var s := CreateOne(vm.cloud.script, old(vm.cloud.State()), vm.instanceId, snapCreate);
      vm.cloud.State() == s.world && binding == s.binding && status == s.status
  {
    ghost var sc := vm.cloud.script;
    ghost var w := vm.cloud.State();
    var id := vm.instanceId;
    binding := snapCreate;
    var data := vm.GetData();
    if data == None {
      return binding, Finished;
    }
    var current := vm.Status();
    if current != "STOPPED" {
      var stopVm := vm.Stop();
      ghost var stop := Api.Stop(sc, w, id);
      var stopped := vm.OperationComplete(stopVm);
      ghost var wait := Wait(sc, stop.world, stop.value);
      assert vm.cloud.State() == wait.world;
      if stopped == Poller.Failed {
        return binding, Crashed(AttributeError);
      }
      if Poller.Truthy(stopped) {
        var op := vm.CreateSnapshot();
        binding := Bound(op);
      }
      ghost var snapped := if Poller.Truthy(wait.value) then BindSnapshot(sc, wait.world, id) else Step(wait.world, snapCreate, Finished);
      assert vm.cloud.State() == snapped.world && binding == snapped.binding;
      if binding == Unbound {
        return binding, Crashed(UnboundLocalError);
      }
      var snapWait := vm.OperationComplete(binding.op);
      if snapWait == Poller.Failed {
        return binding, Crashed(AttributeError);
      }
      if Poller.Truthy(snapWait) {
        var later := vm.Status();
        if later != "RUNNING" {
          var startVm := vm.Start();
          var started := vm.OperationComplete(startVm);
          return binding, AfterWait(started);
        }
      }
      return binding, Finished;
    } else {
      var createSnap := vm.CreateSnapshot();
      var created := vm.OperationComplete(createSnap);
      return binding, AfterWait(created);
    }
  }

  /** `snapshots_creater()` */
  method SnapshotsCreater(cloud: Cloud, instances: seq<string>, lifetime: int) returns (status: Status)
    modifies cloud
    ensures var s := Creator(cloud.script, old(cloud.State()), instances, Unbound);
      cloud.State() == s.world && status == s.status
  {
    ghost var w0 := cloud.State();
    var snapCreate := Unbound;
    for i := 0 to |instances|
      invariant Creator(cloud.script, w0, instances, Unbound) == Creator(cloud.script, cloud.State(), instances[i..], snapCreate)
    {
      assert instances[i..][1..] == instances[i + 1..];
      var vm := new Instance(cloud, instances[i], lifetime);
      var outcome;
      snapCreate, outcome := CreateFor(vm, snapCreate);
      if outcome != Finished {
        return outcome;
      }
    }
    return Finished;
  }

  /** An instance whose `get_data()` is falsy is skipped: nothing is sent. */
  lemma UnknownInstanceSkipped(sc: Script, w: World, id: string, b: Binding)
    requires id !in w.vms
    ensures CreateOne(sc, w, id, b) == Step(w, b, Finished)
  {
  }

  /** A `STOPPED` instance gets exactly a snapshot request and a wait on it:
      no stop, no start, no status change, and `snap_create` untouched. */
  lemma StoppedInstanceOnlySnapshotted(sc: Script, w: World, id: string, b: Binding)
    requires id in w.vms && w.vms[id].status == "STOPPED"
    ensures var s := CreateOne(sc, w, id, b);
      var op := CreateSnapshot(sc, w, id).value;
      && s.world.trace == w.trace + [SnapshotRequest(sc, w, id), WaitCall(op, Poller.Complete(op, sc.pollAt(w.waits)).polls)]
      && s.world.vms == w.vms
      && s.binding == b
  {
  }

  /** When every request is accepted with an id and every operation is done
      at its first poll, a running instance is stopped, snapshotted and
      started again, each followed by one poll, in that order, and ends up
      `RUNNING`. */
  lemma RunningInstanceRoundTrip(sc: Script, w: World, id: string, b: Binding)
    requires id in w.vms && w.vms[id].status != "STOPPED"
    requires sc.codeAt(w.sent) == 200 && sc.codeAt(w.sent + 1) == 200 && sc.codeAt(w.sent + 2) == 200
    requires sc.idAt(w.sent) != None && sc.idAt(w.sent + 1) != None && sc.idAt(w.sent + 2) != None
    requires sc.pollAt(w.waits)(0) == sc.pollAt(w.waits + 1)(0) == sc.pollAt(w.waits + 2)(0) == Poller.Status(true)
    ensures var s := CreateOne(sc, w, id, b);
      var vm := w.vms[id];
      && s.status == Finished
      && s.binding == Bound(sc.idAt(w.sent + 1))
      && s.world.vms[id].status == "RUNNING"
      && s.world.trace == w.trace + [
           StopCall(id), WaitCall(sc.idAt(w.sent), 1),
           CreateSnapshotCall(vm.folderId, vm.bootDisk, SnapshotName(vm.name, sc.clockAt(w.sent + 1))),
           WaitCall(sc.idAt(w.sent + 1), 1),
           StartCall(id), WaitCall(sc.idAt(w.sent + 2), 1)]
  {
    var vm := w.vms[id];
    StopDoneAtOnce(sc, w, id);
    var stopped := w.(vms := w.vms[id := vm.(status := "STOPPED")], sent := w.sent + 1, waits := w.waits + 1,
                      trace := w.trace + [StopCall(id), WaitCall(sc.idAt(w.sent), 1)], slept := w.slept + 2);
    AfterTruthyStop(sc, w, id, b);
    SnapshotThenRestart(sc, stopped, id, vm);
  }

  /** From a stopped instance whose snapshot request and restart are both
      accepted and done at the first poll: the snapshot is bound and the
      instance ends up running. */
  lemma SnapshotThenRestart(sc: Script, w: World, id: string, vm: Vm)
    requires id in w.vms && w.vms[id].status == "STOPPED"
    requires w.vms[id].folderId == vm.folderId && w.vms[id].bootDisk == vm.bootDisk && w.vms[id].name == vm.name
    requires sc.codeAt(w.sent) == 200 && sc.codeAt(w.sent + 1) == 200
    requires sc.idAt(w.sent) != None && sc.idAt(w.sent + 1) != None
    requires sc.pollAt(w.waits)(0) == Poller.Status(true) && sc.pollAt(w.waits + 1)(0) == Poller.Status(true)
    ensures var snapped := BindSnapshot(sc, w, id);
      var s := FinishRunning(sc, snapped.world, id, snapped.binding);
      && s.status == Finished
      && s.binding == Bound(sc.idAt(w.sent))
      && s.world.vms[id].status == "RUNNING"
      && s.world.trace == w.trace + [
           CreateSnapshotCall(vm.folderId, vm.bootDisk, SnapshotName(vm.name, sc.clockAt(w.sent))),
           WaitCall(sc.idAt(w.sent), 1), StartCall(id), WaitCall(sc.idAt(w.sent + 1), 1)]
  {
    SnapshotRequestOf(sc, w, id, vm, w.sent);
    var call := SnapshotRequest(sc, w, id);
    var snapped := BindSnapshot(sc, w, id);
    assert snapped.binding == Bound(sc.idAt(w.sent)) && snapped.world.sent == w.sent + 1;
    assert snapped.world.waits == w.waits && snapped.world.trace == w.trace + [call];
    FinishRunningRestarts(sc, snapped.world, id, snapped.binding);
  }

  /** A stop that is accepted and done at its first poll. */
  lemma StopDoneAtOnce(sc: Script, w: World, id: string)
    requires id in w.vms && w.vms[id].status != "STOPPED"
    requires sc.codeAt(w.sent) == 200 && sc.idAt(w.sent) != None && sc.pollAt(w.waits)(0) == Poller.Status(true)
    ensures var stop := Stop(sc, w, id);
      Wait(sc, stop.world, stop.value) ==
        Answer(w.(vms := w.vms[id := w.vms[id].(status := "STOPPED")], sent := w.sent + 1, waits := w.waits + 1,
                  trace := w.trace + [StopCall(id), WaitCall(sc.idAt(w.sent), 1)], slept := w.slept + 2),
               Poller.Completed)
  {
    var stop := Stop(sc, w, id);
    assert stop.world == w.(vms := w.vms[id := w.vms[id].(status := "STOPPED")], sent := w.sent + 1, trace := w.trace + [StopCall(id)]);
    assert stop.value == sc.idAt(w.sent);
    WaitDoneAtOnce(sc, stop.world, stop.value);
  }

  /** The tail of the loop body on a stopped instance whose snapshot and
      restart are accepted and done at the first poll: it restarts it. */
  lemma FinishRunningRestarts(sc: Script, w: World, id: string, b: Binding)
    requires id in w.vms && w.vms[id].status == "STOPPED" && b.Bound? && b.op != None
    requires sc.pollAt(w.waits)(0) == Poller.Status(true) && sc.pollAt(w.waits + 1)(0) == Poller.Status(true)
    requires sc.codeAt(w.sent) == 200 && sc.idAt(w.sent) != None
    ensures var s := FinishRunning(sc, w, id, b);
      && s.status == Finished && s.binding == b
      && s.world.vms[id].status == "RUNNING"
      && s.world.trace == w.trace + [WaitCall(b.op, 1), StartCall(id), WaitCall(sc.idAt(w.sent), 1)]
  {
    WaitDoneAtOnce(sc, w, b.op);
    var wait := Wait(sc, w, b.op);
    var start := Start(sc, wait.world, id);
    WaitDoneAtOnce(sc, start.world, start.value);
  }

  /** A wait whose first poll says done: one poll, two seconds asleep. */
  lemma WaitDoneAtOnce(sc: Script, w: World, op: Option<OpId>)
    requires op != None && sc.pollAt(w.waits)(0) == Poller.Status(true)
    ensures Wait(sc, w, op) == Answer(w.(waits := w.waits + 1, trace := w.trace + [WaitCall(op, 1)], slept := w.slept + 2), Poller.Completed)
  {
    assert Poller.Complete(op, sc.pollAt(w.waits)) == Poller.Run(Poller.Completed, 1);
  }

  /** On the first instance, a refused stop leaves `snap_create` unbound and the
      whole run ends in `UnboundLocalError` right after the stop's wait. */
  lemma RefusedFirstStopIsUnbound(sc: Script, w: World, id: string, rest: seq<string>)
    requires id in w.vms && w.vms[id].status != "STOPPED"
    requires sc.codeAt(w.sent) != 200
    ensures var s := Creator(sc, w, [id] + rest, Unbound);
      && s.status == Crashed(UnboundLocalError)
      && s.world.trace == w.trace + [StopCall(id), WaitCall(None, 0)]
  {
    assert ([id] + rest)[0] == id;
  }

  /** On a later instance, a refused stop makes the loop wait on the previous
      instance's snapshot operation instead, and no snapshot is requested.
      The run stops there unless that stale wait is truthy and the instance
      is not `RUNNING`; then one start and its wait follow
      (`RefusedStopStartsUnstopped`). */
  lemma RefusedStopReusesStaleId(sc: Script, w: World, id: string, op: Option<OpId>)
    requires id in w.vms && w.vms[id].status != "STOPPED"
    requires sc.codeAt(w.sent) != 200
    ensures var s := CreateOne(sc, w, id, Bound(op));
      var stale := Poller.Complete(op, sc.pollAt(w.waits + 1));
      var prefix := w.trace + [StopCall(id), WaitCall(None, 0)] + [WaitCall(op, stale.polls)];
      && s.binding == Bound(op)
      && Extends(prefix, s.world.trace) && |s.world.trace| <= |prefix| + 2
      && (forall k | |w.trace| <= k < |s.world.trace| :: !s.world.trace[k].CreateSnapshotCall?)
      && (s.world.trace == prefix <==> w.vms[id].status == "RUNNING" || !Poller.Truthy(stale.outcome))
      && (s.world.trace == prefix ==> s.world.vms == w.vms)
  {
    var stopCalls := [StopCall(id), WaitCall(None, 0)];
    var staleWait := [WaitCall(op, Poller.Complete(op, sc.pollAt(w.waits + 1)).polls)];
    var s := CreateOne(sc, w, id, Bound(op));
    if w.vms[id].status == "RUNNING" || !Poller.Truthy(Poller.Complete(op, sc.pollAt(w.waits + 1)).outcome) {
      RefusedStopEndsAtStaleWait(sc, w, id, op);
      assert s.world.trace == w.trace + stopCalls + staleWait + [];
      NoSnapshotAdded(w.trace, stopCalls, staleWait, []);
    } else {
      RefusedStopStartsUnstopped(sc, w, id, op);
      var started := if sc.codeAt(w.sent + 1) == 200 then sc.idAt(w.sent + 1) else None;
      var restart := [StartCall(id), WaitCall(started, Poller.Complete(started, sc.pollAt(w.waits + 2)).polls)];
      assert s.world.trace == w.trace + stopCalls + staleWait + restart;
      NoSnapshotAdded(w.trace, stopCalls, staleWait, restart);
    }
  }

  /** A refused stop whose stale wait is falsy, or on a `RUNNING` instance:
      the body ends right after that wait and changes no instance. */
  lemma RefusedStopEndsAtStaleWait(sc: Script, w: World, id: string, op: Option<OpId>)
    requires id in w.vms && w.vms[id].status != "STOPPED"
    requires sc.codeAt(w.sent) != 200
    requires w.vms[id].status == "RUNNING" || !Poller.Truthy(Poller.Complete(op, sc.pollAt(w.waits + 1)).outcome)
    ensures var s := CreateOne(sc, w, id, Bound(op));
      && s.binding == Bound(op)
      && s.world.vms == w.vms
      && s.world.trace == w.trace + [StopCall(id), WaitCall(None, 0)] + [WaitCall(op, Poller.Complete(op, sc.pollAt(w.waits + 1)).polls)]
  {
    var waited := w.(sent := w.sent + 1, waits := w.waits + 1, trace := w.trace + [StopCall(id), WaitCall(None, 0)]);
    RefusedStopWaits(sc, w, id, op);
    FinishRunningEnds(sc, waited, id, Bound(op));
  }

  /** The stale id's consequence: when the stale wait is truthy, an instance
      in any status other than `STOPPED` or `RUNNING` is started, although
      this run never stopped it. */
  lemma RefusedStopStartsUnstopped(sc: Script, w: World, id: string, op: Option<OpId>)
    requires id in w.vms && w.vms[id].status != "STOPPED" && w.vms[id].status != "RUNNING"
    requires sc.codeAt(w.sent) != 200
    requires Poller.Truthy(Poller.Complete(op, sc.pollAt(w.waits + 1)).outcome)
    ensures var s := CreateOne(sc, w, id, Bound(op));
      var stale := Poller.Complete(op, sc.pollAt(w.waits + 1));
      var started := if sc.codeAt(w.sent + 1) == 200 then sc.idAt(w.sent + 1) else None;
      && s.binding == Bound(op)
      && s.world.trace == w.trace + [StopCall(id), WaitCall(None, 0)] + [WaitCall(op, stale.polls)]
                                  + [StartCall(id), WaitCall(started, Poller.Complete(started, sc.pollAt(w.waits + 2)).polls)]
      && (sc.codeAt(w.sent + 1) == 200 ==> s.world.vms[id].status == "RUNNING")
  {
    var waited := w.(sent := w.sent + 1, waits := w.waits + 1, trace := w.trace + [StopCall(id), WaitCall(None, 0)]);
    RefusedStopWaits(sc, w, id, op);
    var s := CreateOne(sc, w, id, Bound(op));
    assert s == FinishRunning(sc, waited, id, Bound(op));
    FinishRunningStarts(sc, waited, id, Bound(op));
  }

  /** Calls appended after a prefix, none of them a snapshot request. */
  lemma NoSnapshotAdded(t0: seq<Call>, calls: seq<Call>, wait: seq<Call>, more: seq<Call>)
    requires forall c | c in calls :: !c.CreateSnapshotCall?
    requires forall c | c in wait :: !c.CreateSnapshotCall?
    requires forall c | c in more :: !c.CreateSnapshotCall?
    ensures var t := t0 + calls + wait + more;
      && Extends(t0 + calls + wait, t) && |t| == |t0 + calls + wait| + |more|
      && (forall k | |t0| <= k < |t| :: !t[k].CreateSnapshotCall?)
      && (t == t0 + calls + wait <==> more == [])
  {
    var t := t0 + calls + wait + more;
    ExtendsAppend(t0 + calls + wait, more);
    forall k | |t0| <= k < |t|
      ensures !t[k].CreateSnapshotCall?
    {
      var j := k - |t0|;
      assert t[k] == (calls + wait + more)[j];
      if j < |calls| {
        assert t[k] == calls[j];
      } else if j < |calls| + |wait| {
        assert t[k] == wait[j - |calls|];
      } else {
        assert t[k] == more[j - |calls| - |wait|];
      }
    }
  }

  /** A refused stop and the wait on its `None` id leave the loop body at its
      wait on `snap_create`. */
  lemma RefusedStopWaits(sc: Script, w: World, id: string, op: Option<OpId>)
    requires id in w.vms && w.vms[id].status != "STOPPED"
    requires sc.codeAt(w.sent) != 200
    ensures CreateOne(sc, w, id, Bound(op)) ==
      FinishRunning(sc, w.(sent := w.sent + 1, waits := w.waits + 1, trace := w.trace + [StopCall(id), WaitCall(None, 0)]), id, Bound(op))
  {
    StopRefused(sc, w, id);
  }

  /** A refused stop, and the wait on the `None` it returns. */
  lemma StopRefused(sc: Script, w: World, id: string)
    requires id in w.vms && w.vms[id].status != "STOPPED"
    requires sc.codeAt(w.sent) != 200
    ensures var stop := Stop(sc, w, id);
      Wait(sc, stop.world, stop.value) ==
        Answer(w.(sent := w.sent + 1, waits := w.waits + 1, trace := w.trace + [StopCall(id), WaitCall(None, 0)]), Poller.NoOperation)
  {
    var stop := Stop(sc, w, id);
    assert stop == Answer(w.(sent := w.sent + 1, trace := w.trace + [StopCall(id)]), None);
    assert Poller.Complete(None, sc.pollAt(w.waits)) == Poller.Run(Poller.NoOperation, 0);
  }

  /** The tail of the loop body ends with its wait on `snap_create` when
      that wait is falsy or the instance is `RUNNING`. */
  lemma FinishRunningEnds(sc: Script, w: World, id: string, b: Binding)
    requires id in w.vms && b.Bound?
    requires w.vms[id].status == "RUNNING" || !Poller.Truthy(Poller.Complete(b.op, sc.pollAt(w.waits)).outcome)
    ensures var s := FinishRunning(sc, w, id, b);
      && s.binding == b && s.world.vms == w.vms
      && s.world.trace == w.trace + [WaitCall(b.op, Poller.Complete(b.op, sc.pollAt(w.waits)).polls)]
  {
  }

  /** Otherwise it starts the instance and waits for that. */
  lemma FinishRunningStarts(sc: Script, w: World, id: string, b: Binding)
    requires id in w.vms && b.Bound? && w.vms[id].status != "RUNNING"
    requires Poller.Truthy(Poller.Complete(b.op, sc.pollAt(w.waits)).outcome)
    ensures var s := FinishRunning(sc, w, id, b);
      var started := if sc.codeAt(w.sent) == 200 then sc.idAt(w.sent) else None;
      && s.binding == b
      && s.world.trace == w.trace + [WaitCall(b.op, Poller.Complete(b.op, sc.pollAt(w.waits)).polls)]
                                  + [StartCall(id), WaitCall(started, Poller.Complete(started, sc.pollAt(w.waits + 1)).polls)]
      && (sc.codeAt(w.sent) == 200 ==> s.world.vms[id].status == "RUNNING")
  {
    var wait := Wait(sc, w, b.op);
    var start := Start(sc, wait.world, id);
    assert start.world.waits == w.waits + 1 && start.world.trace == wait.world.trace + [StartCall(id)];
  }

  /** After a truthy stop wait the loop body snapshots and goes on to wait
      on that snapshot. */
  lemma AfterTruthyStop(sc: Script, w: World, id: string, b: Binding)
    requires id in w.vms && w.vms[id].status != "STOPPED"
    requires var stop := Stop(sc, w, id); Poller.Truthy(Wait(sc, stop.world, stop.value).value)
    ensures var stop := Stop(sc, w, id);
      var snapped := BindSnapshot(sc, Wait(sc, stop.world, stop.value).world, id);
      CreateOne(sc, w, id, b) == FinishRunning(sc, snapped.world, id, snapped.binding)
  {
  }

  /** A stop that is still running after 600 seconds (as when no poll ever
      says done, `Poller.TimesOutAfterCeiling`) counts as done: the snapshot of
      the still-running disk is requested anyway. */
  lemma StopTimeoutStillSnapshots(sc: Script, w: World, id: string, b: Binding)
    requires id in w.vms && w.vms[id].status != "STOPPED"
    requires sc.codeAt(w.sent) == 200 && sc.idAt(w.sent) != None
    requires Poller.Complete(sc.idAt(w.sent), sc.pollAt(w.waits)).outcome == Poller.TooLong
    ensures var s := CreateOne(sc, w, id, b);
      var vm := w.vms[id];
      && Extends(w.trace + [
           StopCall(id), WaitCall(sc.idAt(w.sent), Poller.MaxPolls),
           CreateSnapshotCall(vm.folderId, vm.bootDisk, SnapshotName(vm.name, sc.clockAt(w.sent + 1)))],
         s.world.trace)
      && s.binding == Bound(if sc.codeAt(w.sent + 1) == 200 then sc.idAt(w.sent + 1) else None)
  {
    var vm := w.vms[id];
    StopTimesOut(sc, w, id);
    var stopped := w.(vms := w.vms[id := vm.(status := "STOPPED")], sent := w.sent + 1, waits := w.waits + 1,
                      trace := w.trace + [StopCall(id), WaitCall(sc.idAt(w.sent), Poller.MaxPolls)],
                      slept := w.slept + Poller.Ceiling);
    AfterTruthyStop(sc, w, id, b);
    SnapshotRequestOf(sc, stopped, id, vm, w.sent + 1);
    var snapped := BindSnapshot(sc, stopped, id);
    assert snapped.world.trace == stopped.trace + [SnapshotRequest(sc, stopped, id)];
    FinishRunningExtends(sc, snapped.world, id, snapped.binding);
  }

  /** A stop that is accepted and still running at the ceiling. */
  lemma StopTimesOut(sc: Script, w: World, id: string)
    requires id in w.vms && w.vms[id].status != "STOPPED"
    requires sc.codeAt(w.sent) == 200 && sc.idAt(w.sent) != None
    requires Poller.Complete(sc.idAt(w.sent), sc.pollAt(w.waits)).outcome == Poller.TooLong
    ensures var stop := Stop(sc, w, id);
      Wait(sc, stop.world, stop.value) ==
        Answer(w.(vms := w.vms[id := w.vms[id].(status := "STOPPED")], sent := w.sent + 1, waits := w.waits + 1,
                  trace := w.trace + [StopCall(id), WaitCall(sc.idAt(w.sent), Poller.MaxPolls)],
                  slept := w.slept + Poller.Ceiling),
               Poller.TooLong)
  {
    var stop := Stop(sc, w, id);
    assert stop.world == w.(vms := w.vms[id := w.vms[id].(status := "STOPPED")], sent := w.sent + 1, trace := w.trace + [StopCall(id)]);
    assert stop.value == sc.idAt(w.sent);
    assert Poller.Complete(stop.value, sc.pollAt(w.waits)) == Poller.Run(Poller.TooLong, Poller.MaxPolls);
  }

  /** The tail of the loop body only appends to the record of calls. */
  lemma FinishRunningExtends(sc: Script, w: World, id: string, b: Binding)
    requires id in w.vms && b.Bound?
    ensures var s := FinishRunning(sc, w, id, b);
      Extends(w.trace, s.world.trace) && s.binding == b
  {
    var wait := Wait(sc, w, b.op);
    ExtendsAppend(w.trace, [WaitCall(b.op, Poller.Complete(b.op, sc.pollAt(w.waits)).polls)]);
    if wait.value != Poller.Failed && Poller.Truthy(wait.value) && wait.world.vms[id].status != "RUNNING" {
      var start := Start(sc, wait.world, id);
      var started := Wait(sc, start.world, start.value);
      ExtendsAppend(wait.world.trace, [StartCall(id)]);
      ExtendsAppend(start.world.trace, [WaitCall(start.value, Poller.Complete(start.value, sc.pollAt(start.world.waits)).polls)]);
      ExtendsTrans(w.trace, wait.world.trace, start.world.trace);
      ExtendsTrans(w.trace, start.world.trace, started.world.trace);
    }
  }

  /** The loop body for an instance not `STOPPED` as evidently intended: the
      wait on `snap_create` and the restart nested under the truthy stop
      wait, so that `snap_create` is only read where it was just bound. */
  function CreateRunningIntended(sc: Script, w: World, id: string): Step
    requires id in w.vms
  {
    var stop := Stop(sc, w, id);
    var wait := Wait(sc, stop.world, stop.value);
    if wait.value == Poller.Failed then Step(wait.world, Unbound, Crashed(AttributeError))
    else if !Poller.Truthy(wait.value) then Step(wait.world, Unbound, Finished)
    else
      var snapped := BindSnapshot(sc, wait.world, id);
      FinishRunning(sc, snapped.world, id, snapped.binding)
  }

  /** The intended body never raises `UnboundLocalError`, leaves an instance
      whose stop was refused alone after the stop's wait, and agrees with the
      body as written whenever the stop wait is truthy. */
  lemma IntendedBodyUsesOwnSnapshot(sc: Script, w: World, id: string, b: Binding)
    requires id in w.vms && w.vms[id].status != "STOPPED"
    ensures CreateRunningIntended(sc, w, id).status != Crashed(UnboundLocalError)
    ensures sc.codeAt(w.sent) != 200 ==>
      CreateRunningIntended(sc, w, id).world.trace == w.trace + [StopCall(id), WaitCall(None, 0)]
      && CreateRunningIntended(sc, w, id).status == Finished
    ensures var stop := Stop(sc, w, id);
      Poller.Truthy(Wait(sc, stop.world, stop.value).value) ==>
        CreateRunningIntended(sc, w, id).world == CreateOne(sc, w, id, b).world
        && CreateRunningIntended(sc, w, id).status == CreateOne(sc, w, id, b).status
  {
    var stop := Stop(sc, w, id);
    var wait := Wait(sc, stop.world, stop.value);
    if Poller.Truthy(wait.value) {
      AfterTruthyStop(sc, w, id, b);
    }
  }

  // ----- snapshots_cleaner -----

  /** Delete every snapshot in order, waiting after each, whatever the
      earlier deletes returned. */
  function DeleteAll(sc: Script, w: World, snapshots: seq<Snapshot>): Ended
    decreases |snapshots|
  {
    if snapshots == [] then Ended(w, Finished)
    else
      var delete := DeleteSnapshot(sc, w, snapshots[0]);
      var wait := Wait(sc, delete.world, delete.value);
      if wait.value == Poller.Failed then Ended(wait.world, Crashed(AttributeError))
      else DeleteAll(sc, wait.world, snapshots[1..])
  }

  /** One instance of the cleaner: its old snapshots, if any, deleted. */
  function CleanOne(sc: Script, w: World, id: string, lifetime: int): Ended
  {
    var found := OldSnapshots(sc, w, id, lifetime);
    if found.value == None then Ended(found.world, Finished)
    else DeleteAll(sc, found.world, found.value.value)
  }

  /** `snapshots_cleaner()` over `ids`. */
  function Cleaner(sc: Script, w: World, ids: seq<string>, lifetime: int): Ended
    decreases |ids|
  {
    if ids == [] then Ended(w, Finished)
    else
      var e := CleanOne(sc, w, ids[0], lifetime);
      if e.status != Finished then e else Cleaner(sc, e.world, ids[1..], lifetime)
  }

  /** `snapshots_cleaner()` */
  method SnapshotsCleaner(cloud: Cloud, instances: seq<string>, lifetime: int) returns (status: Status)
    modifies cloud
    ensures var e := Cleaner(cloud.script, old(cloud.State()), instances, lifetime);
      cloud.State() == e.world && status == e.status
  {
    ghost var sc := cloud.script;
    ghost var w0 := cloud.State();
    for i := 0 to |instances|
      invariant Cleaner(sc, w0, instances, lifetime) == Cleaner(sc, cloud.State(), instances[i..], lifetime)
    {
      assert instances[i..][1..] == instances[i + 1..];
      ghost var before := cloud.State();
      var vm := new Instance(cloud, instances[i], lifetime);
      var snapshots := vm.GetOldSnapshots();
      if snapshots != None {
        var olds := snapshots.value;
        for j := 0 to |olds|
          invariant CleanOne(sc, before, instances[i], lifetime) == DeleteAll(sc, cloud.State(), olds[j..])
        {
          assert olds[j..][1..] == olds[j + 1..];
          var deleteSnap := vm.DeleteSnapshot(olds[j]);
          var done := vm.OperationComplete(deleteSnap);
          if done == Poller.Failed {
            return Crashed(AttributeError);
          }
        }
      }
    }
    return Finished;
  }

  /** `calls` is a delete of each snapshot in turn, each followed by a wait. */
  predicate DeletesThenWaits(calls: seq<Call>, snapshots: seq<Snapshot>)
    decreases |snapshots|
  {
    if snapshots == [] then calls == []
    else
      && |calls| >= 2
      && calls[0] == DeleteSnapshotCall(snapshots[0].id)
      && calls[1].WaitCall?
      && DeletesThenWaits(calls[2..], snapshots[1..])
  }

  /** Whatever the API answers, the cleaner sends one delete and one wait per
      old snapshot, in order, unless a poll fails. */
  lemma {:induction false} DeleteAllCalls(sc: Script, w: World, snapshots: seq<Snapshot>)
    requires DeleteAll(sc, w, snapshots).status == Finished
    ensures var t := DeleteAll(sc, w, snapshots).world.trace;
      && |t| == |w.trace| + 2 * |snapshots|
      && Extends(w.trace, t)
      && DeletesThenWaits(t[|w.trace|..], snapshots)
    decreases |snapshots|
  {
    var t := DeleteAll(sc, w, snapshots).world.trace;
    if snapshots == [] {
      assert t == w.trace;
      ExtendsAppend(w.trace, []);
      assert w.trace + [] == w.trace && t[|w.trace|..] == [];
    } else {
      var delete := DeleteSnapshot(sc, w, snapshots[0]);
      var wait := Wait(sc, delete.world, delete.value);
      var waitCall := WaitCall(delete.value, Poller.Complete(delete.value, sc.pollAt(delete.world.waits)).polls);
      assert wait.world.trace == w.trace + [DeleteSnapshotCall(snapshots[0].id), waitCall];
      assert t == DeleteAll(sc, wait.world, snapshots[1..]).world.trace;
      DeleteAllCalls(sc, wait.world, snapshots[1..]);
      DeletesStep(w.trace, wait.world.trace, t, snapshots, waitCall);
    }
  }

  /** One delete and its wait in front of the calls for the other snapshots. */
  lemma {:induction false} DeletesStep(t0: seq<Call>, t1: seq<Call>, t: seq<Call>, snapshots: seq<Snapshot>, waitCall: Call)
    requires snapshots != [] && waitCall.WaitCall?
    requires t1 == t0 + [DeleteSnapshotCall(snapshots[0].id), waitCall]
    requires |t| == |t1| + 2 * (|snapshots| - 1) && Extends(t1, t) && DeletesThenWaits(t[|t1|..], snapshots[1..])
    ensures |t| == |t0| + 2 * |snapshots| && Extends(t0, t) && DeletesThenWaits(t[|t0|..], snapshots)
  {
    ExtendsAppend(t0, [DeleteSnapshotCall(snapshots[0].id), waitCall]);
    ExtendsTrans(t0, t1, t);
    var calls := t[|t0|..];
    assert calls[2..] == t[|t1|..];
  }

  /** The cleaner on one instance: nothing for an instance the cloud does not
      know; otherwise a listing of its folder, then a delete and a wait for
      each listed snapshot of its boot disk that is old enough. */
  lemma CleanOneCalls(sc: Script, w: World, id: string, lifetime: int)
    requires CleanOne(sc, w, id, lifetime).status == Finished
    ensures id !in w.vms ==> CleanOne(sc, w, id, lifetime).world == w
    ensures id in w.vms ==>
      var t := CleanOne(sc, w, id, lifetime).world.trace;
      var found := OldSnapshots(sc, w, id, lifetime).value;
      var olds := if found == None then [] else found.value;
      && |t| == |w.trace| + 1 + 2 * |olds|
      && t[..|w.trace| + 1] == w.trace + [ListSnapshotsCall(w.vms[id].folderId)]
      && DeletesThenWaits(t[|w.trace| + 1..], olds)
  {
    var found := OldSnapshots(sc, w, id, lifetime);
    if id in w.vms {
      if found.value != None {
        DeleteAllCalls(sc, found.world, found.value.value);
      } else {
        var t := CleanOne(sc, w, id, lifetime).world.trace;
        assert t[|w.trace| + 1..] == [];
      }
    }
  }
}
