/** The objects the tool works with: the remote cloud, whose state its
    requests change, and `Instance`, the tool's handle on one virtual machine.
    Every `Instance` method changes the cloud exactly as the function of the
    same name in `Api` says, and returns that function's value. */
module Compute {
  import opened Base
  import opened Snapshots
  import opened Api
  import Poller

  /** The remote side: the instances and their status, the request and wait
      counters that select the scripted answers, the seconds slept (which
      move the UTC clock on) and, as ghost state, the calls made. */
  class Cloud {
    var vms: map<string, Vm>
    var sent: nat
    var waits: nat
    ghost var trace: seq<Call>
    var slept: nat
    const script: Script

    ghost function State(): World
      reads this
    {
      World(vms, sent, waits, trace, slept)
    }

    constructor(script: Script, vms: map<string, Vm>)
      ensures this.script == script
      ensures State() == World(vms, 0, 0, [], 0)
    {
      this.script := script;
      this.vms := vms;
      sent, waits := 0, 0;
      trace, slept := [], 0;
    }

    /** Sends one request and returns the API's answer. */
    method Send(c: Call) returns (reply: HttpReply)
      modifies this
      ensures var a := Api.Request(script, old(State()), c);
        State() == a.world && reply == a.value
    {
      var code := script.codeAt(sent);
      reply := HttpReply(code, script.idAt(sent));
      if code == 200 {
        vms := Effect(vms, c);
      }
      sent := sent + 1;
      trace := trace + [c];
    }

    /** Records one finished call of `operation_complete`. */
    method Waited(op: Option<OpId>, polls: nat, elapsed: nat)
      modifies this
      ensures State() == old(State()).(waits := old(waits) + 1,
                                       trace := old(trace) + [WaitCall(op, polls)],
                                       slept := old(slept) + elapsed)
    {
      waits := waits + 1;
      trace := trace + [WaitCall(op, polls)];
      slept := slept + elapsed;
    }

    /** `asyncio.sleep(delay)` */
    method Sleep(delay: nat)
      modifies this
      ensures State() == old(State()).(slept := old(slept) + delay)
    {
      slept := slept + delay;
    }
  }

  /** `Instance(instance_id)`: the description fetched at construction is kept
      in `instanceData`. */
  class Instance {
    const cloud: Cloud
    const instanceId: string
    const lifetime: int
    const instanceData: Option<Vm>

    constructor(cloud: Cloud, instanceId: string, lifetime: int)
      ensures this.cloud == cloud && this.instanceId == instanceId && this.lifetime == lifetime
      ensures instanceData == Api.GetData(cloud.State(), instanceId)
    {
      this.cloud := cloud;
      this.instanceId := instanceId;
      this.lifetime := lifetime;
      instanceData := if instanceId in cloud.vms then Some(cloud.vms[instanceId]) else None;
    }

    /** `get_data()`: the description, or `None` for an unknown instance. */
    method GetData() returns (data: Option<Vm>)
      ensures data == Api.GetData(cloud.State(), instanceId)
    {
      data := if instanceId in cloud.vms then Some(cloud.vms[instanceId]) else None;
    }

    /** The `status` property: re-reads the description. */
    method Status() returns (status: string)
      requires instanceId in cloud.vms
      ensures status == cloud.vms[instanceId].status
    {
      var data := GetData();
      status := data.value.status;
    }

    method Stop() returns (op: Option<OpId>)
      requires instanceId in cloud.vms
      modifies cloud
      ensures var a := Api.Stop(cloud.script, old(cloud.State()), instanceId);
        cloud.State() == a.world && op == a.value
    {
      var status := Status();
      if status != "STOPPED" {
        var reply := cloud.Send(StopCall(instanceId));
        op := if reply.code != 200 then None else reply.id;
      } else {
        op := None;
      }
    }

    method Start() returns (op: Option<OpId>)
      requires instanceId in cloud.vms
      modifies cloud
      ensures var a := Api.Start(cloud.script, old(cloud.State()), instanceId);
        cloud.State() == a.world && op == a.value
    {
      var status := Status();
      if status != "RUNNING" {
        var reply := cloud.Send(StartCall(instanceId));
        op := if reply.code != 200 then None else reply.id;
      } else {
        op := None;
      }
    }

    /** `call_time()` */
    method CallTime() returns (stamp: string)
      ensures stamp == Snapshots.CallTime(cloud.script.clockAt(cloud.sent))
    {
      stamp := Snapshots.CallTime(cloud.script.clockAt(cloud.sent));
    }

    method CreateSnapshot() returns (op: Option<OpId>)
      requires instanceId in cloud.vms
      modifies cloud
      ensures var a := Api.CreateSnapshot(cloud.script, old(cloud.State()), instanceId);
        cloud.State() == a.world && op == a.value
    {
      var data := GetData();
      var vm := data.value;
      var stamp := CallTime();
      var reply := cloud.Send(CreateSnapshotCall(vm.folderId, vm.bootDisk, vm.name + "-" + stamp));
      if reply.code == 429 {
        op := None;
      } else if reply.code != 200 {
        op := None;
      } else {
        op := reply.id;
      }
    }

    method GetAllSnapshots() returns (snapshots: Option<seq<Snapshot>>)
      modifies cloud
      ensures var a := Api.AllSnapshots(cloud.script, old(cloud.State()), instanceId);
        cloud.State() == a.world && snapshots == a.value
    {
      var data := GetData();
      if data == None {
        return None;
      }
      var vm := data.value;
      var reply := cloud.Send(ListSnapshotsCall(vm.folderId));
      if reply.code != 200 || vm.folderId !in cloud.script.listing {
        return None;
      }
      var kept := SelectOnDisk(cloud.script.listing[vm.folderId], vm.bootDisk);
      return Some(kept);
    }

    method GetOldSnapshots() returns (snapshots: Option<seq<Snapshot>>)
      modifies cloud
      ensures var a := Api.OldSnapshots(cloud.script, old(cloud.State()), instanceId, lifetime);
        cloud.State() == a.world && snapshots == a.value
    {
      var all := GetAllSnapshots();
      snapshots := SelectOld(all, cloud.script.utcStart + cloud.slept, lifetime);
    }

    method DeleteSnapshot(s: Snapshot) returns (op: Option<OpId>)
      modifies cloud
      ensures var a := Api.DeleteSnapshot(cloud.script, old(cloud.State()), s);
        cloud.State() == a.world && op == a.value
    {
      var reply := cloud.Send(DeleteSnapshotCall(s.id));
      op := if reply.code != 200 then None else reply.id;
    }

    /** `operation_complete(op)` (and its asynchronous twin). */
    method OperationComplete(op: Option<OpId>) returns (outcome: Poller.Outcome)
      modifies cloud
      ensures var a := Api.Wait(cloud.script, old(cloud.State()), op);
        cloud.State() == a.world && outcome == a.value
    {
      var polls, elapsed;
      outcome, polls, elapsed := Poller.OperationComplete(op, cloud.script.pollAt(cloud.waits));
      cloud.Waited(op, polls, elapsed);
    }
  }
}
