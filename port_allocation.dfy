/** `find_available_machine_port` and `find_available_machine_ports`:
    host ports for a new container on a chosen machine. */
module PortAllocation {
  import opened Outcomes
  import opened OrderedDict
  import opened Cluster
  import opened PortRequests

  /** Container ports below this are shifted up by it before probing. */
  const PortOffset: int := 10000

  /** Where probing starts for a container port. */
  function PortStart(destPort: int): (p: int)
    ensures destPort >= 0 ==> p >= PortOffset
    ensures p == destPort || p == destPort + PortOffset
    ensures destPort >= PortOffset ==> p == destPort
  {
    if destPort < PortOffset then destPort + PortOffset else destPort
  }

  /** Host ports of the containers, among `ks`, that sit on machine `mid`. */
  function UsedPortsAmong(d: Document, mid: string, ks: seq<string>): set<int> {
    set k, p | k in ks && k in d.containers.vals && d.containers.vals[k].machineId == mid
                 && p in d.containers.vals[k].ports :: p
  }

  /** Host ports in use on machine `mid`; containers elsewhere do not count. */
  function UsedPorts(d: Document, mid: string): (r: set<int>)
    ensures d.Valid() ==> forall p :: p in r <==>
      exists k :: k in d.containers.vals && d.containers.vals[k].machineId == mid && p in d.containers.vals[k].ports
  {
    UsedPortsAmong(d, mid, d.containers.keys)
  }

  function Above(used: set<int>, p: int): set<int> {
    set q | q in used && q >= p
  }

  lemma AboveShrinks(used: set<int>, p: int)
    requires p in used
    ensures |Above(used, p + 1)| < |Above(used, p)|
  {
    assert Above(used, p + 1) == Above(used, p) - {p};
  }

  /** The least port at or above `p` that is not in `used`. */
  function LeastFreeFrom(used: set<int>, p: int): (r: int)
    ensures p <= r && r !in used
    ensures forall q :: p <= q < r ==> q in used
    decreases |Above(used, p)|
  {
    if p in used then
      AboveShrinks(used, p);
      LeastFreeFrom(used, p + 1)
    else p
  }

  /** `find_available_machine_port`: collect the host ports used on the
      machine, then probe upward from the start port. */
  method FindAvailableMachinePort(d: Document, machine: Machine, destPort: int) returns (port: int)
    requires d.Valid()
    ensures port == LeastFreeFrom(UsedPorts(d, machine.id), PortStart(destPort))
  {
    // collect the host ports the machine's containers hold
    var portsMap: map<int, int> := map[];
    var i := 0;
    while i < |d.containers.keys|
      invariant 0 <= i <= |d.containers.keys|
      invariant portsMap.Keys == UsedPortsAmong(d, machine.id, d.containers.keys[..i])
    {
      var id := d.containers.keys[i];
      var container := d.containers.vals[id];
      ghost var before := portsMap.Keys;
      if container.machineId == machine.id {
        var remaining: set<int> := container.ports.Keys;
        while remaining != {}
          invariant remaining <= container.ports.Keys
          invariant portsMap.Keys == before + (container.ports.Keys - remaining)
          decreases remaining
        {
          EmptyWhenNoMember(remaining);
          var p :| p in remaining;
          portsMap := portsMap[p := container.ports[p]];
          remaining := remaining - {p};
        }
      }
      UsedPortsStep(d, machine.id, d.containers.keys, i);
      i := i + 1;
    }
    assert d.containers.keys[..i] == d.containers.keys;
    // probe upwards from the start for a port nobody holds
    port := destPort;
    if port < PortOffset {
      port := port + PortOffset;
    }
    ghost var used := portsMap.Keys;
    while port in portsMap
      invariant LeastFreeFrom(used, port) == LeastFreeFrom(used, PortStart(destPort))
      decreases |Above(used, port)|
    {
      AboveShrinks(used, port);
      port := port + 1;
    }
  }

  lemma EmptyWhenNoMember(s: set<int>)
    ensures (forall x :: x !in s) ==> s == {}
  {
    if forall x :: x !in s {
      assert s == {};
    }
  }

  /** One more container scanned adds its host ports if it is on the machine. */
  lemma UsedPortsStep(d: Document, mid: string, ks: seq<string>, i: nat)
    requires i < |ks| && ks[i] in d.containers.vals
    ensures var c := d.containers.vals[ks[i]];
      UsedPortsAmong(d, mid, ks[..i + 1]) ==
        UsedPortsAmong(d, mid, ks[..i]) + (if c.machineId == mid then c.ports.Keys else {})
  {
    assert ks[..i + 1] == ks[..i] + [ks[i]];
    var c := d.containers.vals[ks[i]];
    var lhs := UsedPortsAmong(d, mid, ks[..i + 1]);
    var rhs := UsedPortsAmong(d, mid, ks[..i]) + (if c.machineId == mid then c.ports.Keys else {});
    forall p | p in lhs ensures p in rhs {
      var k :| k in ks[..i + 1] && k in d.containers.vals && d.containers.vals[k].machineId == mid
               && p in d.containers.vals[k].ports;
      if k != ks[i] { assert k in ks[..i]; }
    }
    forall p | p in rhs ensures p in lhs {
      if p !in UsedPortsAmong(d, mid, ks[..i]) {
        assert ks[i] in ks[..i + 1];
      } else {
        var k :| k in ks[..i] && k in d.containers.vals && d.containers.vals[k].machineId == mid
                 && p in d.containers.vals[k].ports;
        assert k in ks[..i + 1];
      }
    }
  }

  /** The host port used for one request: a truthy explicit port verbatim,
      without any collision check; a missing or zero one is probed for. */
  function ChosenHostPort(d: Document, machine: Machine, q: PortRequest): (p: int)
    ensures q.hostPort.Some? && q.hostPort.value != 0 ==> p == q.hostPort.value
    ensures (q.hostPort.None? || q.hostPort.value == 0) ==>
      && p >= PortStart(q.containerPort)
      && p !in UsedPorts(d, machine.id)
      && forall o :: PortStart(q.containerPort) <= o < p ==> o in UsedPorts(d, machine.id)
  {
    if q.hostPort.Some? && q.hostPort.value != 0 then q.hostPort.value
    else LeastFreeFrom(UsedPorts(d, machine.id), PortStart(q.containerPort))
  }

  /** The port map built request by request; every request sees only the
      document, not the ports chosen before it in the same call. */
  function AllocatePorts(d: Document, machine: Machine, reqs: seq<PortRequest>): map<int, int> {
    if reqs == [] then map[]
    else
      var last := reqs[|reqs| - 1];
      AllocatePorts(d, machine, reqs[..|reqs| - 1])[ChosenHostPort(d, machine, last) := last.containerPort]
  }

  /** `find_available_machine_ports` */
  method FindAvailableMachinePorts(d: Document, machine: Machine, requestedPorts: seq<PortRequest>)
    returns (ports: map<int, int>)
    requires d.Valid()
    ensures ports == AllocatePorts(d, machine, requestedPorts)
  {
    ports := map[];
    var i := 0;
    while i < |requestedPorts|
      invariant 0 <= i <= |requestedPorts|
      invariant ports == AllocatePorts(d, machine, requestedPorts[..i])
    {
      var q := requestedPorts[i];
      var srcPort: int;
      if q.hostPort.None? || q.hostPort.value == 0 {
        srcPort := FindAvailableMachinePort(d, machine, q.containerPort);
      } else {
        srcPort := q.hostPort.value;
      }
      assert requestedPorts[..i + 1][..i] == requestedPorts[..i];
      ports := ports[srcPort := q.containerPort];
      i := i + 1;
    }
    assert requestedPorts[..i] == requestedPorts;
  }

  /** No later request chooses the same host port as request `i`. */
  predicate IsLastChoice(d: Document, machine: Machine, reqs: seq<PortRequest>, i: int)
    requires 0 <= i < |reqs|
  {
    forall j :: i < j < |reqs| ==> ChosenHostPort(d, machine, reqs[j]) != ChosenHostPort(d, machine, reqs[i])
  }

  /** The keys of the result are exactly the chosen host ports, and each
      maps to the container port of the last request that chose it. */
  lemma {:induction false} AllocatePortsContents(d: Document, machine: Machine, reqs: seq<PortRequest>)
    ensures forall p :: p in AllocatePorts(d, machine, reqs) <==>
      exists i :: 0 <= i < |reqs| && ChosenHostPort(d, machine, reqs[i]) == p
    ensures forall i :: 0 <= i < |reqs| && IsLastChoice(d, machine, reqs, i) ==>
      AllocatePorts(d, machine, reqs)[ChosenHostPort(d, machine, reqs[i])] == reqs[i].containerPort
  {
    if reqs != [] {
      var init := reqs[..|reqs| - 1];
      AllocatePortsContents(d, machine, init);
      assert forall i :: 0 <= i < |init| ==> init[i] == reqs[i];
      var r := AllocatePorts(d, machine, reqs);
      forall p | p in r ensures exists i :: 0 <= i < |reqs| && ChosenHostPort(d, machine, reqs[i]) == p {
        if p != ChosenHostPort(d, machine, reqs[|reqs| - 1]) {
          var i :| 0 <= i < |init| && ChosenHostPort(d, machine, init[i]) == p;
          assert reqs[i] == init[i];
        }
      }
    }
  }

  /** Every host port allocated was either asked for explicitly or was
      free on the machine in the document as loaded. */
  lemma AllocatedPortsFree(d: Document, machine: Machine, reqs: seq<PortRequest>)
    ensures forall p :: p in AllocatePorts(d, machine, reqs) ==>
      p !in UsedPorts(d, machine.id) ||
      exists i :: 0 <= i < |reqs| && reqs[i].hostPort == Some(p) && p != 0
  {
    AllocatePortsContents(d, machine, reqs);
    forall p | p in AllocatePorts(d, machine, reqs) && p in UsedPorts(d, machine.id)
      ensures exists i :: 0 <= i < |reqs| && reqs[i].hostPort == Some(p) && p != 0
    {
      var i :| 0 <= i < |reqs| && ChosenHostPort(d, machine, reqs[i]) == p;
      assert reqs[i].hostPort == Some(p);
    }
  }

  /** Probing ignores ports chosen earlier in the same call: asking for
      container ports 80 and 10080 on a machine with no used ports gives
      host port 10080 to both, and only the second mapping survives. */
  lemma AllocateIgnoresOwnChoices(d: Document, machine: Machine)
    requires UsedPorts(d, machine.id) == {}
    ensures AllocatePorts(d, machine, [PortRequest(None, 80), PortRequest(None, 10080)]) == map[10080 := 10080]
  {
    var reqs := [PortRequest(None, 80), PortRequest(None, 10080)];
    assert reqs[..1] == [PortRequest(None, 80)] && reqs[..1][..0] == [];
    assert ChosenHostPort(d, machine, reqs[0]) == 10080;
    assert ChosenHostPort(d, machine, reqs[1]) == 10080;
    assert AllocatePorts(d, machine, reqs[..1]) == map[10080 := 80];
  }

  /** Port 80 on a free machine is exposed as 10080; if 10080 is taken, as 10081. */
  lemma PortEscalation(d: Document, machine: Machine)
    ensures UsedPorts(d, machine.id) == {} ==>
      AllocatePorts(d, machine, [PortRequest(None, 80)]) == map[10080 := 80]
    ensures UsedPorts(d, machine.id) == {10080} ==>
      AllocatePorts(d, machine, [PortRequest(None, 80)]) == map[10081 := 80]
  {
    var reqs := [PortRequest(None, 80)];
    assert reqs[..0] == [];
    var p := ChosenHostPort(d, machine, reqs[0]);
    if UsedPorts(d, machine.id) == {10080} {
      assert p >= 10080 && p != 10080 && (p > 10081 ==> 10081 in UsedPorts(d, machine.id));
    }
  }
}
