/** The cloud as the tool sees it, as values: which instances exist and in
    which state, the scripted answers to requests and polls, and the record of
    what the tool asked for.  Every `Instance` method is specified here by a
    function from the world before the call to the world after it and the
    value returned.

    The scripted environment:
    - the n-th request sent (counted from 0) is answered with HTTP status
      `codeAt(n)` and a body whose `id` is `idAt(n)`;
    - the k-th poll of the n-th wait reads `pollAt(n)(k)`;
    - a folder's snapshot listing is `listing[folder]` (no entry: the answer
      has no `snapshots` field);
    - `clockAt(n)` is the local time when the n-th request is prepared;
    - the UTC clock, used for snapshot ages, reads `utcStart` when the run
      begins and then advances by every second the tool sleeps.
    An accepted `stop` or `start` takes effect at once. */
module Api {
  import opened Base
  import opened Snapshots
  import Responses
  import Poller

  /** What the tool reads of an instance: `name`, `folderId`,
      `bootDisk.diskId` and `status`. */
  datatype Vm = Vm(name: string, folderId: string, bootDisk: string, status: string)

  /** A request the tool sent, or one call of `operation_complete` with the
      number of polls it made. */
  datatype Call =
    | StopCall(instance: string)
    | StartCall(instance: string)
    | CreateSnapshotCall(folder: string, disk: string, name: string)
    | ListSnapshotsCall(folder: string)
    | DeleteSnapshotCall(snapshot: string)
    | WaitCall(op: Option<OpId>, polls: nat)

  datatype HttpReply = HttpReply(code: int, id: Option<OpId>)

  datatype Script = Script(
    codeAt: nat -> int,
    idAt: nat -> Option<OpId>,
    pollAt: nat -> nat -> Poller.Reply,
    listing: map<string, seq<Snapshot>>,
    clockAt: nat -> DateTime,
    utcStart: int)

  /** The cloud's instances, the number of requests sent and of waits made so
      far, the calls in order, and the seconds slept. */
  datatype World = World(vms: map<string, Vm>, sent: nat, waits: nat, trace: seq<Call>, slept: nat)

  /** `datetime.utcnow()`, in whole seconds, once `w.slept` seconds have been
      slept. */
  function UtcNow(sc: Script, w: World): int
  {
    sc.utcStart + w.slept
  }

  /** `t` begins with `t0`: calls are only ever appended to the record. */
  predicate Extends(t0: seq<Call>, t: seq<Call>)
  {
    |t| >= |t0| && t[..|t0|] == t0
  }

  lemma ExtendsAppend(t0: seq<Call>, extra: seq<Call>)
    ensures Extends(t0, t0 + extra)
  {
    assert (t0 + extra)[..|t0|] == t0;
  }

  lemma ExtendsTrans(a: seq<Call>, b: seq<Call>, c: seq<Call>)
    requires Extends(a, b) && Extends(b, c)
    ensures Extends(a, c)
  {
    assert c[..|a|] == c[..|b|][..|a|];
  }

  /** The world after a call, and the call's value. */
  datatype Answer<T> = Answer(world: World, value: T)

  /** What an accepted request does to the instances. */
  function Effect(vms: map<string, Vm>, c: Call): (r: map<string, Vm>)
    ensures r.Keys == vms.Keys
    ensures c.StopCall? && c.instance in vms ==> r[c.instance].status == "STOPPED"
    ensures c.StartCall? && c.instance in vms ==> r[c.instance].status == "RUNNING"
  {
    match c
    case StopCall(id) => if id in vms then vms[id := vms[id].(status := "STOPPED")] else vms
    case StartCall(id) => if id in vms then vms[id := vms[id].(status := "RUNNING")] else vms
    case _ => vms
  }

  /** Sending a request: the next scripted answer, the call recorded. */
  function Request(sc: Script, w: World, c: Call): (a: Answer<HttpReply>)
    ensures a.value == HttpReply(sc.codeAt(w.sent), sc.idAt(w.sent))
    ensures a.world.trace == w.trace + [c] && a.world.sent == w.sent + 1
    ensures a.world.vms.Keys == w.vms.Keys && a.world.waits == w.waits && a.world.slept == w.slept
    ensures sc.codeAt(w.sent) != 200 ==> a.world.vms == w.vms
  {
    var code := sc.codeAt(w.sent);
    Answer(w.(vms := if code == 200 then Effect(w.vms, c) else w.vms,
              sent := w.sent + 1,
              trace := w.trace + [c]),
           HttpReply(code, sc.idAt(w.sent)))
  }

  /** `get_data`: the cloud answers 200 with the instance's description for
      an instance it knows and 404 otherwise. */
  function GetData(w: World, id: string): (d: Option<Vm>)
    ensures d != None <==> id in w.vms
    ensures d != None ==> d.value == w.vms[id]
  {
    if id in w.vms then Responses.Data(Responses.GetData(200, w.vms[id]))
    else Responses.Data(Responses.GetData(404, Vm("", "", "", "")))
  }

  /** `stop`: sent only when the status is not `STOPPED`. */
  function Stop(sc: Script, w: World, id: string): (a: Answer<Option<OpId>>)
    requires id in w.vms
    ensures w.vms[id].status == "STOPPED" ==> a == Answer(w, None)
    ensures w.vms[id].status != "STOPPED" ==> a.world.sent == w.sent + 1
    ensures a.world.trace == w.trace + (if w.vms[id].status == "STOPPED" then [] else [StopCall(id)])
    ensures a.world.vms.Keys == w.vms.Keys && a.world.waits == w.waits && a.world.slept == w.slept
    ensures a.value != None ==> a.world.vms[id].status == "STOPPED"
    ensures w.vms[id].status != "STOPPED" && sc.codeAt(w.sent) == 200 ==>
      a.world.vms[id].status == "STOPPED" && a.value == sc.idAt(w.sent)
    ensures w.vms[id].status != "STOPPED" && sc.codeAt(w.sent) != 200 ==> a.value == None && a.world.vms == w.vms
  {
    var status := w.vms[id].status;
    if status == "STOPPED" then Answer(w, None)
    else
      var r := Request(sc, w, StopCall(id));
      Answer(r.world, Responses.Returned(Responses.Guarded(status, "STOPPED", r.value.code, r.value.id)))
  }

  /** `start`: sent only when the status is not `RUNNING`. */
  function Start(sc: Script, w: World, id: string): (a: Answer<Option<OpId>>)
    requires id in w.vms
    ensures w.vms[id].status == "RUNNING" ==> a == Answer(w, None)
    ensures w.vms[id].status != "RUNNING" ==> a.world.sent == w.sent + 1
    ensures a.world.trace == w.trace + (if w.vms[id].status == "RUNNING" then [] else [StartCall(id)])
    ensures a.world.vms.Keys == w.vms.Keys && a.world.waits == w.waits && a.world.slept == w.slept
    ensures a.value != None ==> a.world.vms[id].status == "RUNNING"
    ensures w.vms[id].status != "RUNNING" && sc.codeAt(w.sent) == 200 ==>
      a.world.vms[id].status == "RUNNING" && a.value == sc.idAt(w.sent)
    ensures w.vms[id].status != "RUNNING" && sc.codeAt(w.sent) != 200 ==> a.value == None && a.world.vms == w.vms
  {
    var status := w.vms[id].status;
    if status == "RUNNING" then Answer(w, None)
    else
      var r := Request(sc, w, StartCall(id));
      Answer(r.world, Responses.Returned(Responses.Guarded(status, "RUNNING", r.value.code, r.value.id)))
  }

  /** The request `create_snapshot` sends: the instance's folder and boot disk,
      named after the instance and the time. */
  function SnapshotRequest(sc: Script, w: World, id: string): Call
    requires id in w.vms
  {
    var vm := w.vms[id];
    CreateSnapshotCall(vm.folderId, vm.bootDisk, SnapshotName(vm.name, sc.clockAt(w.sent)))
  }

  /** The snapshot request for an instance that has the folder, disk and name
      of `vm`, sent as request number `n`. */
  lemma SnapshotRequestOf(sc: Script, w: World, id: string, vm: Vm, n: nat)
    requires id in w.vms && w.sent == n
    requires w.vms[id].folderId == vm.folderId && w.vms[id].bootDisk == vm.bootDisk && w.vms[id].name == vm.name
    ensures SnapshotRequest(sc, w, id) == CreateSnapshotCall(vm.folderId, vm.bootDisk, SnapshotName(vm.name, sc.clockAt(n)))
  {
  }

  /** `create_snapshot`: always sent; the operation id on 200 only. */
  function CreateSnapshot(sc: Script, w: World, id: string): (a: Answer<Option<OpId>>)
    requires id in w.vms
    ensures a.world.trace == w.trace + [SnapshotRequest(sc, w, id)] && a.world.sent == w.sent + 1
    ensures a.world.vms == w.vms && a.world.waits == w.waits && a.world.slept == w.slept
    ensures a.value == (if sc.codeAt(w.sent) == 200 then sc.idAt(w.sent) else None)
  {
    var r := Request(sc, w, SnapshotRequest(sc, w, id));
    Answer(r.world, Responses.CreatedId(Responses.CreateSnapshot(r.value.code, r.value.id)))
  }

  /** `get_all_snapshots`: nothing is sent for an instance the cloud does not
      know (its folder cannot be read); otherwise the folder is listed and, on
      200 with a listing, the snapshots of the boot disk are returned. */
  function AllSnapshots(sc: Script, w: World, id: string): (a: Answer<Option<seq<Snapshot>>>)
    ensures id !in w.vms ==> a.world == w && a.value == None
    ensures id in w.vms ==> a.world.trace == w.trace + [ListSnapshotsCall(w.vms[id].folderId)] && a.world.sent == w.sent + 1
    ensures a.world.vms == w.vms && a.world.waits == w.waits && a.world.slept == w.slept
    ensures a.value != None <==> id in w.vms && sc.codeAt(w.sent) == 200 && w.vms[id].folderId in sc.listing
    ensures a.value != None ==> a.value.value == Filter(sc.listing[w.vms[id].folderId], OnDisk(w.vms[id].bootDisk))
  {
    if id !in w.vms then Answer(w, None)
    else
      var vm := w.vms[id];
      var r := Request(sc, w, ListSnapshotsCall(vm.folderId));
      if r.value.code != 200 || vm.folderId !in sc.listing then Answer(r.world, None)
      else Answer(r.world, Some(Filter(sc.listing[vm.folderId], OnDisk(vm.bootDisk))))
  }

  /** `get_old_snapshots`: `None` when the listing is missing or empty, else
      the listed snapshots of the boot disk that are old enough. */
  function OldSnapshots(sc: Script, w: World, id: string, lifetime: int): (a: Answer<Option<seq<Snapshot>>>)
    ensures a.world == AllSnapshots(sc, w, id).world
    ensures var all := AllSnapshots(sc, w, id).value;
      && (a.value == None <==> all == None || all.value == [])
      && (a.value != None ==> a.value.value == Filter(all.value, IsOld(UtcNow(sc, w), lifetime)))
  {
    var all := AllSnapshots(sc, w, id);
    Answer(all.world,
      if all.value == None || all.value.value == [] then None
      else Some(Filter(all.value.value, IsOld(UtcNow(sc, w), lifetime))))
  }

  /** `delete_snapshot`: always sent; the operation id on 200 only. */
  function DeleteSnapshot(sc: Script, w: World, s: Snapshot): (a: Answer<Option<OpId>>)
    ensures a.world.trace == w.trace + [DeleteSnapshotCall(s.id)] && a.world.sent == w.sent + 1
    ensures a.world.vms == w.vms && a.world.waits == w.waits && a.world.slept == w.slept
    ensures a.value == (if sc.codeAt(w.sent) == 200 then sc.idAt(w.sent) else None)
  {
    var r := Request(sc, w, DeleteSnapshotCall(s.id));
    Answer(r.world, Responses.DeleteSnapshot(r.value.code, r.value.id))
  }

  /** `operation_complete`: the wait reads the next poll script; its polls and
      sleeps are recorded. */
  function Wait(sc: Script, w: World, op: Option<OpId>): (a: Answer<Poller.Outcome>)
    ensures var r := Poller.Complete(op, sc.pollAt(w.waits));
      && a.value == r.outcome
      && a.world == w.(waits := w.waits + 1, trace := w.trace + [WaitCall(op, r.polls)], slept := w.slept + Poller.Slept(r))
  {
    var r := Poller.Complete(op, sc.pollAt(w.waits));
    Answer(w.(waits := w.waits + 1, trace := w.trace + [WaitCall(op, r.polls)], slept := w.slept + Poller.Slept(r)),
           r.outcome)
  }

  /** A wait for a falsy id neither polls nor sleeps; every other wait sleeps
      2 seconds per poll, at most 600 in all. */
  lemma WaitSleeps(sc: Script, w: World, op: Option<OpId>)
    ensures var a := Wait(sc, w, op);
      && (op == None ==> a.world.slept == w.slept && a.world.trace == w.trace + [WaitCall(None, 0)] && a.value == Poller.NoOperation)
      && (op != None ==> w.slept < a.world.slept <= w.slept + Poller.Ceiling)
  {
  }
}
