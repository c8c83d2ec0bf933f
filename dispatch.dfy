/** The scripts' top level: the instance list read from the configuration,
    and which workflows a run performs for its command-line flags.

    Two revisions of the script exist.  `snaps.py` runs against the current
    `Instance`; `snapshoter.py` against the older one, and its `--create`
    branch calls `vm_status_info`, a name defined nowhere. */
module Dispatch {
  import opened Base
  import opened Api
  import opened Compute
  import opened Workflows
  import opened Snapshots

  /** The snapshot lifetime used when the configuration leaves it empty. */
  const DefaultLifetime := 365

  /** `inst != ''` */
  function NonEmpty(): string -> bool
  {
    (id: string) => id != ""
  }

  /** `[inst for inst in config.instances_list if inst != '']` */
  function InstanceList(configured: seq<string>): seq<string>
  {
    Filter(configured, NonEmpty())
  }

  /** The instance list is the configured ids without the empty ones, each as
      often as configured, in configured order (`Base.FilterAppend`). */
  lemma InstanceListExactly(configured: seq<string>, id: string)
    ensures multiset(InstanceList(configured))[id] == if id == "" then 0 else multiset(configured)[id]
    ensures id in InstanceList(configured) <==> id in configured && id != ""
  {
    FilterCount(configured, NonEmpty(), id);
    FilterMembers(configured, NonEmpty(), id);
  }

  /** The flags `--create`, `--delete` and `--full`. */
  datatype Flags = Flags(create: bool, delete: bool, full: bool)

  datatype Revision = Snaps | Snapshoter

  /** The creator's result as a run's result. */
  function Created(s: Step): Ended
  {
    Ended(s.world, s.status)
  }

  /** A whole run.  An empty instance list quits before anything is sent.
      The first flag set, in the order create, delete, full, picks the work;
      none prints an input error.  `instance_status_info` only reads and
      logs, so it changes nothing here; in the older revision the call in its
      place raises `NameError`. */
  function Run(rev: Revision, sc: Script, w: World, configured: seq<string>, flags: Flags, lifetime: int): Ended
  {
    var instances := InstanceList(configured);
    if instances == [] then Ended(w, Quit)
    else if flags.create then
      var s := Creator(sc, w, instances, Unbound);
      if s.status == Finished && rev == Snapshoter then Ended(s.world, Crashed(NameError)) else Created(s)
    else if flags.delete then Cleaner(sc, w, instances, lifetime)
    else if flags.full then
      var e := Cleaner(sc, w, instances, lifetime);
      if e.status != Finished then e else Created(Creator(sc, e.world, instances, Unbound))
    else Ended(w, Finished)
  }

  /** The top level of either script. */
  method RunScript(rev: Revision, cloud: Cloud, configured: seq<string>, flags: Flags, lifetime: int) returns (status: Status)
    modifies cloud
    ensures var e := Run(rev, cloud.script, old(cloud.State()), configured, flags, lifetime);
      cloud.State() == e.world && status == e.status
  {
    var instances := InstanceList(configured);
    if instances == [] {
      return Quit;
    }
    if flags.create {
      status := SnapshotsCreater(cloud, instances, lifetime);
      if status == Finished && rev == Snapshoter {
        status := Crashed(NameError);
      }
    } else if flags.delete {
      status := SnapshotsCleaner(cloud, instances, lifetime);
    } else if flags.full {
      status := SnapshotsCleaner(cloud, instances, lifetime);
      if status == Finished {
        status := SnapshotsCreater(cloud, instances, lifetime);
      }
    } else {
      status := Finished;
    }
  }

  /** With no instance configured the script quits and sends nothing. */
  lemma EmptyListQuits(rev: Revision, sc: Script, w: World, configured: seq<string>, flags: Flags, lifetime: int)
    requires forall k | 0 <= k < |configured| :: configured[k] == ""
    ensures Run(rev, sc, w, configured, flags, lifetime) == Ended(w, Quit)
  {
    if InstanceList(configured) != [] {
      var id := InstanceList(configured)[0];
      InstanceListExactly(configured, id);
      assert false;
    }
  }

  /** A wait appends its one call, which is a cleaning one. */
  lemma WaitCleans(sc: Script, w: World, op: Option<OpId>)
    ensures CleansAfter(w.trace, Wait(sc, w, op).world.trace)
  {
    CleansAppend(w.trace, [WaitCall(op, Poller.Complete(op, sc.pollAt(w.waits)).polls)]);
  }

  lemma CreateStoppedExtends(sc: Script, w: World, id: string, b: Binding)
    requires id in w.vms
    ensures Extends(w.trace, CreateStopped(sc, w, id, b).world.trace)
  {
    var create := CreateSnapshot(sc, w, id);
    ExtendsAppend(w.trace, [SnapshotRequest(sc, w, id)]);
    WaitCleans(sc, create.world, create.value);
    ExtendsTrans(w.trace, create.world.trace, CreateStopped(sc, w, id, b).world.trace);
  }

  /** Every loop of the creator only appends to the record of calls. */
  lemma CreateOneExtends(sc: Script, w: World, id: string, b: Binding)
    ensures Extends(w.trace, CreateOne(sc, w, id, b).world.trace)
  {
    var t := CreateOne(sc, w, id, b).world.trace;
    if id !in w.vms {
      ExtendsAppend(w.trace, []);
      assert w.trace + [] == w.trace;
    } else if w.vms[id].status == "STOPPED" {
      CreateStoppedExtends(sc, w, id, b);
    } else {
      var stop := Stop(sc, w, id);
      var wait := Wait(sc, stop.world, stop.value);
      ExtendsAppend(w.trace, [StopCall(id)]);
      WaitCleans(sc, stop.world, stop.value);
      ExtendsTrans(w.trace, stop.world.trace, wait.world.trace);
      if wait.value != Poller.Failed && Poller.Truthy(wait.value) {
        var snapped := BindSnapshot(sc, wait.world, id);
        FinishRunningExtends(sc, snapped.world, id, snapped.binding);
        ExtendsAppend(wait.world.trace, [SnapshotRequest(sc, wait.world, id)]);
        ExtendsTrans(w.trace, wait.world.trace, snapped.world.trace);
        ExtendsTrans(w.trace, snapped.world.trace, t);
      } else if wait.value != Poller.Failed && b.Bound? {
        FinishRunningExtends(sc, wait.world, id, b);
        ExtendsTrans(w.trace, wait.world.trace, t);
      }
    }
  }

  lemma {:induction false} CreatorExtends(sc: Script, w: World, ids: seq<string>, b: Binding)
    ensures Extends(w.trace, Creator(sc, w, ids, b).world.trace)
    decreases |ids|
  {
    if ids == [] {
      ExtendsAppend(w.trace, []);
      assert w.trace + [] == w.trace;
    } else {
      var s := CreateOne(sc, w, ids[0], b);
      CreateOneExtends(sc, w, ids[0], b);
      if s.status == Finished {
        CreatorExtends(sc, s.world, ids[1..], s.binding);
        ExtendsTrans(w.trace, s.world.trace, Creator(sc, w, ids, b).world.trace);
      }
    }
  }

  /** No call the cleaner makes stops, starts or snapshots an instance. */
  predicate CleaningOnly(calls: seq<Call>)
  {
    forall k | 0 <= k < |calls| :: calls[k].ListSnapshotsCall? || calls[k].DeleteSnapshotCall? || calls[k].WaitCall?
  }

  /** `t` is `t0` followed by cleaning calls only. */
  predicate CleansAfter(t0: seq<Call>, t: seq<Call>)
  {
    Extends(t0, t) && CleaningOnly(t[|t0|..])
  }

  lemma CleansAppend(t0: seq<Call>, extra: seq<Call>)
    requires CleaningOnly(extra)
    ensures CleansAfter(t0, t0 + extra)
  {
    ExtendsAppend(t0, extra);
    assert (t0 + extra)[|t0|..] == extra;
  }

  lemma CleansTrans(a: seq<Call>, b: seq<Call>, c: seq<Call>)
    requires CleansAfter(a, b) && CleansAfter(b, c)
    ensures CleansAfter(a, c)
  {
    ExtendsTrans(a, b, c);
    assert c[|a|..] == b[|a|..] + c[|b|..] by {
      assert c == c[..|b|] + c[|b|..];
    }
  }

  lemma {:induction false} DeleteAllCleansOnly(sc: Script, w: World, snapshots: seq<Snapshot>)
    ensures CleansAfter(w.trace, DeleteAll(sc, w, snapshots).world.trace)
    decreases |snapshots|
  {
    if snapshots == [] {
      CleansAppend(w.trace, []);
      assert w.trace + [] == w.trace;
    } else {
      var delete := DeleteSnapshot(sc, w, snapshots[0]);
      var wait := Wait(sc, delete.world, delete.value);
      CleansAppend(w.trace, [DeleteSnapshotCall(snapshots[0].id)]);
      WaitCleans(sc, delete.world, delete.value);
      CleansTrans(w.trace, delete.world.trace, wait.world.trace);
      if wait.value != Poller.Failed {
        DeleteAllCleansOnly(sc, wait.world, snapshots[1..]);
        CleansTrans(w.trace, wait.world.trace, DeleteAll(sc, w, snapshots).world.trace);
      }
    }
  }

  /** Reading the old snapshots sends at most one listing request. */
  lemma OldSnapshotsCleansOnly(sc: Script, w: World, id: string, lifetime: int)
    ensures CleansAfter(w.trace, OldSnapshots(sc, w, id, lifetime).world.trace)
  {
    if id in w.vms {
      CleansAppend(w.trace, [ListSnapshotsCall(w.vms[id].folderId)]);
    } else {
      CleansAppend(w.trace, []);
      assert w.trace + [] == w.trace;
    }
  }

  lemma CleanOneCleansOnly(sc: Script, w: World, id: string, lifetime: int)
    ensures CleansAfter(w.trace, CleanOne(sc, w, id, lifetime).world.trace)
  {
    var found := OldSnapshots(sc, w, id, lifetime);
    OldSnapshotsCleansOnly(sc, w, id, lifetime);
    if found.value != None {
      DeleteAllCleansOnly(sc, found.world, found.value.value);
      CleansTrans(w.trace, found.world.trace, CleanOne(sc, w, id, lifetime).world.trace);
    }
  }

  lemma {:induction false} CleanerCleansOnly(sc: Script, w: World, ids: seq<string>, lifetime: int)
    ensures CleansAfter(w.trace, Cleaner(sc, w, ids, lifetime).world.trace)
    decreases |ids|
  {
    if ids == [] {
      CleansAppend(w.trace, []);
      assert w.trace + [] == w.trace;
    } else {
      var e := CleanOne(sc, w, ids[0], lifetime);
      CleanOneCleansOnly(sc, w, ids[0], lifetime);
      if e.status == Finished {
        CleanerCleansOnly(sc, e.world, ids[1..], lifetime);
        CleansTrans(w.trace, e.world.trace, Cleaner(sc, w, ids, lifetime).world.trace);
      }
    }
  }

  /** `--full` cleans first: the run's calls begin with the whole cleaner's,
      none of which touches an instance, and the creator runs on the world the
      cleaner left. */
  lemma FullCleansBeforeCreating(rev: Revision, sc: Script, w: World, configured: seq<string>, lifetime: int)
    requires InstanceList(configured) != []
    ensures var instances := InstanceList(configured);
      var e := Cleaner(sc, w, instances, lifetime);
      var t := Run(rev, sc, w, configured, Flags(false, false, true), lifetime).world.trace;
      && CleansAfter(w.trace, e.world.trace)
      && Extends(e.world.trace, t)
      && (e.status == Finished ==>
            Run(rev, sc, w, configured, Flags(false, false, true), lifetime) == Created(Creator(sc, e.world, instances, Unbound)))
  {
    var instances := InstanceList(configured);
    var e := Cleaner(sc, w, instances, lifetime);
    CleanerCleansOnly(sc, w, instances, lifetime);
    if e.status == Finished {
      CreatorExtends(sc, e.world, instances, Unbound);
    }
  }

  /** `snapshoter.py --create` ends in `NameError` whenever the creator itself
      finishes, after the same calls as the creator alone. */
  lemma OlderCreateEndsInNameError(sc: Script, w: World, configured: seq<string>, lifetime: int)
    requires InstanceList(configured) != []
    requires Creator(sc, w, InstanceList(configured), Unbound).status == Finished
    ensures var older := Run(Snapshoter, sc, w, configured, Flags(true, false, false), lifetime);
      older == Ended(Creator(sc, w, InstanceList(configured), Unbound).world, Crashed(NameError))
  {
  }

  /** `--create` wins over the other flags, and `snaps.py --create` ends
      exactly as the creator does. */
  lemma CreateIsCreatorOnly(sc: Script, w: World, configured: seq<string>, delete: bool, full: bool, lifetime: int)
    requires InstanceList(configured) != []
    ensures Run(Snaps, sc, w, configured, Flags(true, delete, full), lifetime)
      == Created(Creator(sc, w, InstanceList(configured), Unbound))
  {
  }
}
