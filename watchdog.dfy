/** The watchdog: at start-up it drops the configured targets the cloud does
    not know; then, for each remaining target, it sleeps the configured delay,
    reads the instance's status and starts it if the status is `STOPPED`.

    The start-up pruning removes items from the list it is iterating over.
    Python's list iterator keeps a position, so the item after a removed one
    moves into the removed item's place and is never looked at. */
module Watchdog {
  import opened Base
  import opened Api
  import opened Compute
  import opened Workflows
  import Poller
  import Dispatch

  /** The statuses that make the watchdog start an instance. */
  const WatchStatus: seq<string> := ["STOPPED"]

  /** The seconds slept between two checks when the configuration leaves the
      delay empty. */
  const DefaultDelay := 10

  /** Where `x` first occurs in `xs`. */
  function FirstIndex(xs: seq<string>, x: string): (k: nat)
    requires x in xs
    ensures k < |xs| && xs[k] == x && x !in xs[..k]
  {
    if xs[0] == x then 0
    else
      var j := FirstIndex(xs[1..], x);
      assert xs[..j + 1] == [xs[0]] + xs[1..][..j];
      j + 1
  }

  /** `xs.remove(x)`: drops the first occurrence of `x` and keeps the order
      of the rest; `x` must occur. */
  function RemoveFirst(xs: seq<string>, x: string): (r: seq<string>)
    requires x in xs
    ensures var k := FirstIndex(xs, x); r == xs[..k] + xs[k + 1..]
    ensures |r| == |xs| - 1
  {
    if xs[0] == x then xs[1..]
    else
      var j := FirstIndex(xs[1..], x);
      var rest := RemoveFirst(xs[1..], x);
      assert [xs[0]] + rest == xs[..j + 1] + xs[j + 2..] by {
        assert xs[..j + 1] == [xs[0]] + xs[1..][..j];
        assert xs[j + 2..] == xs[1..][j + 1..];
      }
      [xs[0]] + rest
  }

  /** `remove` takes away exactly one `x` and nothing else. */
  lemma RemoveFirstCounts(xs: seq<string>, x: string)
    requires x in xs
    ensures multiset(RemoveFirst(xs, x)) == multiset(xs) - multiset{x}
  {
    var k := FirstIndex(xs, x);
    var before, after := xs[..k], xs[k + 1..];
    assert xs == before + [x] + after;
    assert multiset(xs) == multiset(before) + multiset{x} + multiset(after);
    assert multiset(RemoveFirst(xs, x)) == multiset(before) + multiset(after);
  }

  /** The pruning loop as written, from iterator position `i` on: an item
      whose name does not resolve is removed, and the position moves on all
      the same. */
  function PruneFrom(xs: seq<string>, i: nat, named: set<string>): seq<string>
    decreases |xs| - i
  {
    if i >= |xs| then xs
    else if xs[i] in named then PruneFrom(xs, i + 1, named)
    else PruneFrom(RemoveFirst(xs, xs[i]), i + 1, named)
  }

  /** The start-up loop; `named` are the ids whose `name` is not `None`, that
      is the instances the cloud knows. */
  method PruneTargets(cloud: Cloud, targets: seq<string>) returns (pruned: seq<string>)
    ensures pruned == PruneFrom(targets, 0, cloud.vms.Keys)
  {
    pruned := targets;
    var i := 0;
    while i < |pruned|
      invariant PruneFrom(targets, 0, cloud.vms.Keys) == PruneFrom(pruned, i, cloud.vms.Keys)
      decreases |pruned| - i
    {
      var instanceId := pruned[i];
      var instance := new Instance(cloud, instanceId, Dispatch.DefaultLifetime);
      if instance.instanceData == None {
        pruned := RemoveFirst(pruned, instanceId);
      }
      i := i + 1;
    }
  }

  /** Pruning never removes an id that resolves, and never adds anything. */
  lemma {:induction false} PruneKeepsResolved(xs: seq<string>, i: nat, named: set<string>, x: string)
    ensures multiset(PruneFrom(xs, i, named))[x] <= multiset(xs)[x]
    ensures x in named ==> multiset(PruneFrom(xs, i, named))[x] == multiset(xs)[x]
    decreases |xs| - i
  {
    if i < |xs| {
      if xs[i] in named {
        PruneKeepsResolved(xs, i + 1, named, x);
      } else {
        RemoveFirstCounts(xs, xs[i]);
        PruneKeepsResolved(RemoveFirst(xs, xs[i]), i + 1, named, x);
      }
    }
  }

  /** When every target resolves, pruning leaves the list as it is. */
  lemma {:induction false} PruneAllResolved(xs: seq<string>, i: nat, named: set<string>)
    requires forall k | i <= k < |xs| :: xs[k] in named
    ensures PruneFrom(xs, i, named) == xs
    decreases |xs| - i
  {
    if i < |xs| {
      PruneAllResolved(xs, i + 1, named);
    }
  }

  /** Two unknown targets in a row: the first is removed, the second takes
      its place, is skipped, and stays on the list. */
  lemma PruneSkipsSuccessor(a: string, b: string, named: set<string>)
    requires a !in named && b !in named
    ensures PruneFrom([a, b], 0, named) == [b]
  {
    assert RemoveFirst([a, b], a) == [b];
  }

  /** `id` resolves in `named`. */
  function Resolves(named: set<string>): string -> bool
  {
    (id: string) => id in named
  }

  /** The evident intent of the pruning loop: keep exactly the targets that
      resolve, in order. */
  function ResolvedTargets(targets: seq<string>, named: set<string>): seq<string>
  {
    Filter(targets, Resolves(named))
  }

  /** The corrected pruning keeps every resolving target as often as listed
      and no other. */
  lemma ResolvedTargetsExactly(targets: seq<string>, named: set<string>, x: string)
    ensures multiset(ResolvedTargets(targets, named))[x] == if x in named then multiset(targets)[x] else 0
    ensures x in ResolvedTargets(targets, named) <==> x in targets && x in named
  {
    FilterCount(targets, Resolves(named), x);
    FilterMembers(targets, Resolves(named), x);
  }

  /** Both prunings agree on a list whose targets all resolve. */
  lemma PruningsAgreeWhenAllResolve(targets: seq<string>, named: set<string>)
    requires forall k | 0 <= k < |targets| :: targets[k] in named
    ensures PruneFrom(targets, 0, named) == ResolvedTargets(targets, named) == targets
  {
    PruneAllResolved(targets, 0, named);
    FilterAll(targets, Resolves(named));
  }

  /** How start-up ends. */
  datatype Launch = Quits | Raises(error: Exception) | Watches(targets: seq<string>)

  /** Start-up: no non-empty target quits; otherwise the targets are pruned
      with `prune` and one watch is started per remaining target, and
      `asyncio.wait` on no task at all raises `ValueError`. */
  function Start(configured: seq<string>, pruned: seq<string> -> seq<string>): Launch
  {
    var targets := Dispatch.InstanceList(configured);
    if targets == [] then Quits
    else
      var watched := pruned(targets);
      if watched == [] then Raises(ValueError) else Watches(watched)
  }

  /** The target list is empty exactly when every configured target is. */
  lemma {:induction false} NoTargets(configured: seq<string>)
    ensures Dispatch.InstanceList(configured) == [] <==> forall k | 0 <= k < |configured| :: configured[k] == ""
  {
    var targets := Dispatch.InstanceList(configured);
    if targets != [] {
      Dispatch.InstanceListExactly(configured, targets[0]);
    }
    forall k | 0 <= k < |configured| && configured[k] != ""
      ensures targets != []
    {
      Dispatch.InstanceListExactly(configured, configured[k]);
    }
  }

  /** Start-up with the pruning as written. */
  function StartAsWritten(configured: seq<string>, named: set<string>): Launch
  {
    Start(configured, (ts: seq<string>) => PruneFrom(ts, 0, named))
  }

  /** Start-up with the corrected pruning. */
  function StartResolved(configured: seq<string>, named: set<string>): Launch
  {
    Start(configured, (ts: seq<string>) => ResolvedTargets(ts, named))
  }

  /** With no non-empty target both start-ups quit before anything is
      pruned or watched, and only then. */
  lemma StartQuitsWithoutTargets(configured: seq<string>, named: set<string>)
    ensures StartAsWritten(configured, named) == Quits <==> forall k | 0 <= k < |configured| :: configured[k] == ""
    ensures StartResolved(configured, named) == Quits <==> forall k | 0 <= k < |configured| :: configured[k] == ""
  {
    NoTargets(configured);
  }

  /** The corrected start-up raises `ValueError` exactly when there are
      non-empty targets but the cloud knows none of them. */
  lemma StartResolvedRaisesWhenNoneKnown(configured: seq<string>, named: set<string>)
    ensures StartResolved(configured, named) == Raises(ValueError) <==>
      && (exists k | 0 <= k < |configured| :: configured[k] != "")
      && (forall k | 0 <= k < |configured| && configured[k] != "" :: configured[k] !in named)
  {
    NoTargets(configured);
    var targets := Dispatch.InstanceList(configured);
    var watched := ResolvedTargets(targets, named);
    if watched != [] {
      var x := watched[0];
      ResolvedTargetsExactly(targets, named, x);
      Dispatch.InstanceListExactly(configured, x);
      var k :| 0 <= k < |configured| && configured[k] == x;
    }
    forall k | 0 <= k < |configured| && configured[k] != "" && configured[k] in named
      ensures watched != []
    {
      Dispatch.InstanceListExactly(configured, configured[k]);
      ResolvedTargetsExactly(targets, named, configured[k]);
    }
  }

  /** With two unknown targets the watchdog as written goes on to watch the
      second; the corrected start-up stops at once with `ValueError`. */
  lemma StartWatchesUnknownTarget(a: string, b: string, named: set<string>)
    requires a != "" && b != "" && a !in named && b !in named
    ensures StartAsWritten([a, b], named) == Watches([b])
    ensures StartResolved([a, b], named) == Raises(ValueError)
  {
    var targets := [a, b];
    FilterAll(targets, Dispatch.NonEmpty());
    PruneSkipsSuccessor(a, b, named);
    FilterNone(targets, Resolves(named));
  }

  /** Every target the corrected start-up watches is known to the cloud. */
  lemma StartResolvedWatchesKnown(configured: seq<string>, named: set<string>, x: string)
    requires StartResolved(configured, named).Watches?
    ensures x in StartResolved(configured, named).targets <==> x in configured && x != "" && x in named
  {
    var targets := Dispatch.InstanceList(configured);
    Dispatch.InstanceListExactly(configured, x);
    ResolvedTargetsExactly(targets, named, x);
  }

  /** One round of `watchdog(instance_id)`: sleep, read the status, and start
      the instance and wait for the start when the status is watched. */
  function CheckOnce(sc: Script, w: World, id: string, delay: nat): Ended
    requires id in w.vms
  {
    var rested := w.(slept := w.slept + delay);
    if rested.vms[id].status in WatchStatus then
      var started := Api.Start(sc, rested, id);
      var wait := Wait(sc, started.world, started.value);
      Ended(wait.world, AfterWait(wait.value))
    else Ended(rested, Finished)
  }

  method Check(cloud: Cloud, instanceId: string, delay: nat) returns (status: Status)
    requires instanceId in cloud.vms
    modifies cloud
    ensures var e := CheckOnce(cloud.script, old(cloud.State()), instanceId, delay);
      cloud.State() == e.world && status == e.status
  {
    cloud.Sleep(delay);
    var instance := new Instance(cloud, instanceId, Dispatch.DefaultLifetime);
    var current := instance.Status();
    if current in WatchStatus {
      var op := instance.Start();
      var outcome := instance.OperationComplete(op);
      return AfterWait(outcome);
    }
    return Finished;
  }

  /** An instance in any other status is left alone: the round only sleeps. */
  lemma CheckLeavesOthersAlone(sc: Script, w: World, id: string, delay: nat)
    requires id in w.vms && w.vms[id].status != "STOPPED"
    ensures CheckOnce(sc, w, id, delay) == Ended(w.(slept := w.slept + delay), Finished)
  {
  }

  /** A stopped instance is started and the start is waited for; when the
      cloud accepts, the instance is running afterwards. */
  lemma CheckStartsStopped(sc: Script, w: World, id: string, delay: nat)
    requires id in w.vms && w.vms[id].status == "STOPPED"
    ensures var e := CheckOnce(sc, w, id, delay);
      var op := if sc.codeAt(w.sent) == 200 then sc.idAt(w.sent) else None;
      var r := Poller.Complete(op, sc.pollAt(w.waits));
      && e.world.trace == w.trace + [StartCall(id), WaitCall(op, r.polls)]
      && e.world.slept == w.slept + delay + Poller.Slept(r)
      && (sc.codeAt(w.sent) == 200 ==> e.world.vms[id].status == "RUNNING")
      && (e.status == Finished <==> r.outcome != Poller.Failed)
  {
  }
}
