/** The commands that edit the cluster document: `machine add`,
    `machine remove`, `project add`, `project remove` and `container add`.
    Each is specified by a function from the document before to what the
    command reports and the document it saves, and carried out in place by
    a method of `ClusterConfig`. Loading, saving, prompting, id generation
    and provisioning are parameters. */
module Commands {
  import opened Outcomes
  import opened OrderedDict
  import opened Text
  import opened Addresses
  import opened Cluster
  import opened PortRequests
  import opened Placement
  import opened PortAllocation

  /** What a command reports, and the document it leaves to be saved. */
  datatype Outcome<T> = Outcome(result: Result<T>, doc: Document)

  /** The arguments of `container add`; an empty `machineHint`, `imageId`
      or `image` is an absent one. */
  datatype ContainerRequest = ContainerRequest(
    projectId: string,
    name: string,
    portsStr: string,
    distro: string,
    imageId: string,
    image: string,
    machineHint: string)

  predicate HostTaken(ms: ODict<string, Machine>, host: string) {
    exists k :: k in ms.vals && ms.vals[k].host == host
  }

  predicate NameTaken(ps: ODict<string, Project>, name: string) {
    exists k :: k in ps.vals && ps.vals[k].name == name
  }

  /** No two machines share a host. */
  predicate DistinctHosts(ms: ODict<string, Machine>) {
    forall k1, k2 :: k1 in ms.vals && k2 in ms.vals && ms.vals[k1].host == ms.vals[k2].host ==> k1 == k2
  }

  /** No two projects share a name. */
  predicate DistinctNames(ps: ODict<string, Project>) {
    forall k1, k2 :: k1 in ps.vals && k2 in ps.vals && ps.vals[k1].name == ps.vals[k2].name ==> k1 == k2
  }

  /** Every record is stored under its own id. */
  predicate IdsMatch(d: Document) {
    && (forall k :: k in d.machines.vals ==> d.machines.vals[k].id == k)
    && (forall k :: k in d.projects.vals ==> d.projects.vals[k].id == k)
    && (forall k :: k in d.containers.vals ==> d.containers.vals[k].id == k)
  }

  /** The invariant the adding commands keep. */
  ghost predicate WellFormed(d: Document) {
    d.Valid() && IdsMatch(d) && DistinctHosts(d.machines) && DistinctNames(d.projects)
  }

  /** Every container names a known project and a known machine, and
      carries that machine's host. */
  predicate References(d: Document) {
    forall k :: k in d.containers.vals ==>
      && d.containers.vals[k].projectId in d.projects.vals
      && d.containers.vals[k].machineId in d.machines.vals
      && d.machines.vals[d.containers.vals[k].machineId].host == d.containers.vals[k].host
  }

  // ---------------------------------------------------------------- machines

  /** `machine_add`: both addresses must parse and the host must be new;
      the machine is then stored under the fresh id. */
  function MachineAddOutcome(d: Document, remoteUri: string, uri: string, newId: string): (o: Outcome<Machine>)
    requires d.Valid()
    ensures o.doc.Valid()
    ensures o.result.Ok? <==>
      ParseUri(remoteUri).Ok? && ParseUri(uri).Ok? && !HostTaken(d.machines, ParseUri(uri).value.host)
    ensures o.result.Err? ==> o.doc == d
    ensures ParseUri(remoteUri).Err? || ParseUri(uri).Err? ==> o.result == Err(ValueError)
    ensures o.result.Err? && ParseUri(remoteUri).Ok? && ParseUri(uri).Ok? ==> o.result.error == DuplicateHost
    ensures o.result.Ok? ==>
      && o.result.value == Machine(newId, ParseUri(uri).value.user, ParseUri(uri).value.host, ParseUri(uri).value.port)
      && o.doc == d.(machines := Put(d.machines, newId, o.result.value))
  {
    if ParseUri(remoteUri).Err? then Outcome(Err(ValueError), d)
    else match ParseUri(uri)
      case Err(e) => Outcome(Err(e), d)
      case Ok(a) =>
        if HostTaken(d.machines, a.host) then Outcome(Err(DuplicateHost), d)
        else
          var m := Machine(newId, a.user, a.host, a.port);
          Outcome(Ok(m), d.(machines := Put(d.machines, newId, m)))
  }

  /** `machine_remove`: the operator must confirm before the id is looked
      up; the machine's containers are left in place. */
  function MachineRemoveOutcome(d: Document, remoteUri: string, machineId: string, confirmed: bool): (o: Outcome<string>)
    requires d.Valid()
    ensures o.doc.Valid()
    ensures o.result.Ok? <==> ParseUri(remoteUri).Ok? && confirmed && machineId in d.machines.vals
    ensures o.result.Err? ==> o.doc == d
    ensures ParseUri(remoteUri).Err? ==> o.result == Err(ValueError)
    ensures ParseUri(remoteUri).Ok? && !confirmed ==> o.result == Err(Aborted)
    ensures ParseUri(remoteUri).Ok? && confirmed && machineId !in d.machines.vals ==> o.result == Err(UnknownMachine)
    ensures o.result.Ok? ==>
      && o.result.value == machineId
      && o.doc.machines.vals == d.machines.vals - {machineId}
      && DroppedAt(d.machines.keys, machineId, o.doc.machines.keys)
      && o.doc.projects == d.projects && o.doc.containers == d.containers
  {
    if ParseUri(remoteUri).Err? then Outcome(Err(ValueError), d)
    else if !confirmed then Outcome(Err(Aborted), d)
    else if machineId !in d.machines.vals then Outcome(Err(UnknownMachine), d)
    else Outcome(Ok(machineId), d.(machines := Delete(d.machines, machineId)))
  }

  // ---------------------------------------------------------------- projects

  /** `project_add`: the name must be new; the project is then stored under
      the fresh id. */
  function ProjectAddOutcome(d: Document, remoteUri: string, name: string, newId: string): (o: Outcome<Project>)
    requires d.Valid()
    ensures o.doc.Valid()
    ensures o.result.Ok? <==> ParseUri(remoteUri).Ok? && !NameTaken(d.projects, name)
    ensures o.result.Err? ==> o.doc == d
    ensures ParseUri(remoteUri).Err? ==> o.result == Err(ValueError)
    ensures o.result.Err? && ParseUri(remoteUri).Ok? ==> o.result.error == DuplicateProjectName
    ensures o.result.Ok? ==>
      && o.result.value == Project(newId, name)
      && o.doc == d.(projects := Put(d.projects, newId, o.result.value))
  {
    if ParseUri(remoteUri).Err? then Outcome(Err(ValueError), d)
    else if NameTaken(d.projects, name) then Outcome(Err(DuplicateProjectName), d)
    else
      var p := Project(newId, name);
      Outcome(Ok(p), d.(projects := Put(d.projects, newId, p)))
  }

  /** `project_remove`: as `machine_remove`, for projects. */
  function ProjectRemoveOutcome(d: Document, remoteUri: string, projectId: string, confirmed: bool): (o: Outcome<string>)
    requires d.Valid()
    ensures o.doc.Valid()
    ensures o.result.Ok? <==> ParseUri(remoteUri).Ok? && confirmed && projectId in d.projects.vals
    ensures o.result.Err? ==> o.doc == d
    ensures ParseUri(remoteUri).Err? ==> o.result == Err(ValueError)
    ensures ParseUri(remoteUri).Ok? && !confirmed ==> o.result == Err(Aborted)
    ensures ParseUri(remoteUri).Ok? && confirmed && projectId !in d.projects.vals ==> o.result == Err(UnknownProject)
    ensures o.result.Ok? ==>
      && o.result.value == projectId
      && o.doc.projects.vals == d.projects.vals - {projectId}
      && DroppedAt(d.projects.keys, projectId, o.doc.projects.keys)
      && o.doc.machines == d.machines && o.doc.containers == d.containers
  {
    if ParseUri(remoteUri).Err? then Outcome(Err(ValueError), d)
    else if !confirmed then Outcome(Err(Aborted), d)
    else if projectId !in d.projects.vals then Outcome(Err(UnknownProject), d)
    else Outcome(Ok(projectId), d.(projects := Delete(d.projects, projectId)))
  }

  // -------------------------------------------------------------- containers

  /** The machine `container_add` uses: the hinted one, looked up by id, or
      else `placed`, what `find_available_machine` returned. */
  function ChosenMachine(d: Document, machineHint: string, placed: Result<Machine>): (r: Result<Machine>)
    ensures machineHint != "" ==> (r.Ok? <==> machineHint in d.machines.vals)
    ensures machineHint != "" && r.Ok? ==> r.value == d.machines.vals[machineHint]
    ensures machineHint != "" && r.Err? ==> r.error == KeyError
    ensures machineHint == "" ==> r == placed
  {
    if machineHint != "" then Lookup(d.machines, machineHint) else placed
  }

  /** The bootstrap step after the container is saved: only plain `arch`
      is implemented, and then provisioning must succeed. */
  function Bootstrap(c: Container, provisioned: bool): (r: Result<Container>)
    ensures r.Ok? <==> c.distro == "arch" && c.imageId == "" && c.image == "" && provisioned
    ensures r.Ok? ==> r.value == c
    ensures r.Err? && !provisioned && c.distro == "arch" && c.imageId == "" && c.image == "" ==>
      r.error == ProvisioningFailed
    ensures r.Err? && provisioned ==> r.error == NotImplemented
    ensures !(c.distro == "arch" && c.imageId == "" && c.image == "") ==> r == Err(NotImplemented)
  {
    if c.distro == "arch" then
      if c.imageId != "" then Err(NotImplemented)
      else if c.image != "" then Err(NotImplemented)
      else if !provisioned then Err(ProvisioningFailed)
      else Ok(c)
    else Err(NotImplemented)
  }

  /** `container_add`: parse the ports, check the project, choose the
      machine and its host ports against the document as loaded, then
      save the container before bootstrapping it; a failed bootstrap
      leaves the saved container behind. */
  function ContainerAddOutcome(d: Document, remoteUri: string, req: ContainerRequest, newId: string,
                               provisioned: bool, placed: Result<Machine>): (o: Outcome<Container>)
    requires d.Valid()
    ensures o.doc.Valid()
    ensures o.doc.machines == d.machines && o.doc.projects == d.projects
    ensures o.result.Err? && o.result.error != NotImplemented && o.result.error != ProvisioningFailed ==> o.doc == d
    ensures ParseUri(remoteUri).Err? ==> o.result == Err(ValueError)
    ensures ParseUri(remoteUri).Ok? && PortList(Split(req.portsStr, ',')).Err? ==> o.result == Err(ValueError)
    ensures ParseUri(remoteUri).Ok? && PortList(Split(req.portsStr, ',')).Ok? && req.projectId !in d.projects.vals ==>
      o.result == Err(UnknownProject)
    ensures (ParseUri(remoteUri).Ok? && PortList(Split(req.portsStr, ',')).Ok? && req.projectId in d.projects.vals &&
             ChosenMachine(d, req.machineHint, placed).Err?) ==>
      o == Outcome(Err(ChosenMachine(d, req.machineHint, placed).error), d)
    ensures o.result.Ok? ==>
      && newId in o.doc.containers.vals && o.doc.containers.vals[newId] == o.result.value
      && o.result.value.id == newId && o.result.value.projectId == req.projectId
  {
    if ParseUri(remoteUri).Err? then Outcome(Err(ValueError), d)
    else match PortList(Split(req.portsStr, ','))
      case Err(e) => Outcome(Err(e), d)
      case Ok(requested) =>
        if req.projectId !in d.projects.vals then Outcome(Err(UnknownProject), d)
        else match ChosenMachine(d, req.machineHint, placed)
          case Err(e) => Outcome(Err(e), d)
          case Ok(m) =>
            var c := Container(newId, req.projectId, req.name, req.distro, req.imageId, req.image,
                               m.id, m.host, AllocatePorts(d, m, requested));
            Outcome(Bootstrap(c, provisioned), d.(containers := Put(d.containers, newId, c)))
  }

  /** The container record `container_add` saved, if it got that far. */
  predicate Saved<T>(o: Outcome<T>) {
    o.result.Ok? || o.result.error == NotImplemented || o.result.error == ProvisioningFailed
  }

  // ------------------------------------------------------------ properties

  /** A new machine with a fresh id keeps hosts distinct and ids matching,
      and every container's references stay good. */
  lemma MachineAddKeepsInvariants(d: Document, remoteUri: string, uri: string, newId: string)
    requires WellFormed(d) && newId !in d.machines.vals
    ensures WellFormed(MachineAddOutcome(d, remoteUri, uri, newId).doc)
    ensures References(d) ==> References(MachineAddOutcome(d, remoteUri, uri, newId).doc)
  {
    var o := MachineAddOutcome(d, remoteUri, uri, newId);
    if o.result.Ok? {
      assert forall k :: k in d.machines.vals ==> d.machines.vals[k].host != o.result.value.host;
    }
  }

  /** Adding an address whose host was just added fails and changes nothing. */
  lemma MachineAddTwice(d: Document, remoteUri: string, uri: string, id1: string, id2: string)
    requires d.Valid() && MachineAddOutcome(d, remoteUri, uri, id1).result.Ok?
    ensures var d1 := MachineAddOutcome(d, remoteUri, uri, id1).doc;
      MachineAddOutcome(d1, remoteUri, uri, id2) == Outcome(Err(DuplicateHost), d1)
  {
    var d1 := MachineAddOutcome(d, remoteUri, uri, id1).doc;
    assert d1.machines.vals[id1].host == ParseUri(uri).value.host;
  }

  /** Confirmed removal of a machine just added under a fresh id restores
      the document. */
  lemma MachineAddThenRemove(d: Document, remoteUri: string, uri: string, newId: string)
    requires d.Valid() && newId !in d.machines.vals
    requires MachineAddOutcome(d, remoteUri, uri, newId).result.Ok?
    ensures MachineRemoveOutcome(MachineAddOutcome(d, remoteUri, uri, newId).doc, remoteUri, newId, true) ==
      Outcome(Ok(newId), d)
  {
    var o := MachineAddOutcome(d, remoteUri, uri, newId);
    DeleteAfterPut(d.machines, newId, o.result.value);
  }

  /** Removal keeps the invariant, but does not remove the machine's
      containers: a document whose references were good can be left with a
      container on a machine that no longer exists. */
  lemma MachineRemoveEffects(d: Document, remoteUri: string, machineId: string, confirmed: bool)
    requires WellFormed(d)
    ensures WellFormed(MachineRemoveOutcome(d, remoteUri, machineId, confirmed).doc)
    ensures var o := MachineRemoveOutcome(d, remoteUri, machineId, confirmed);
      o.result.Ok? && (exists k :: k in d.containers.vals && d.containers.vals[k].machineId == machineId)
      ==> !References(o.doc)
  {
    var o := MachineRemoveOutcome(d, remoteUri, machineId, confirmed);
    if o.result.Ok? && exists k :: k in d.containers.vals && d.containers.vals[k].machineId == machineId {
      var k :| k in d.containers.vals && d.containers.vals[k].machineId == machineId;
      assert k in o.doc.containers.vals && o.doc.containers.vals[k].machineId !in o.doc.machines.vals;
    }
  }

  /** A new project with a fresh id keeps names distinct and ids matching. */
  lemma ProjectAddKeepsInvariants(d: Document, remoteUri: string, name: string, newId: string)
    requires WellFormed(d) && newId !in d.projects.vals
    ensures WellFormed(ProjectAddOutcome(d, remoteUri, name, newId).doc)
    ensures References(d) ==> References(ProjectAddOutcome(d, remoteUri, name, newId).doc)
  {
    var o := ProjectAddOutcome(d, remoteUri, name, newId);
    if o.result.Ok? {
      assert forall k :: k in d.projects.vals ==> d.projects.vals[k].name != name;
    }
  }

  /** Adding a name that was just added fails and changes nothing. */
  lemma ProjectAddTwice(d: Document, remoteUri: string, name: string, id1: string, id2: string)
    requires d.Valid() && ProjectAddOutcome(d, remoteUri, name, id1).result.Ok?
    ensures var d1 := ProjectAddOutcome(d, remoteUri, name, id1).doc;
      ProjectAddOutcome(d1, remoteUri, name, id2) == Outcome(Err(DuplicateProjectName), d1)
  {
    var d1 := ProjectAddOutcome(d, remoteUri, name, id1).doc;
    assert d1.projects.vals[id1].name == name;
  }

  /** Confirmed removal of a project just added under a fresh id restores
      the document. */
  lemma ProjectAddThenRemove(d: Document, remoteUri: string, name: string, newId: string)
    requires d.Valid() && newId !in d.projects.vals
    requires ProjectAddOutcome(d, remoteUri, name, newId).result.Ok?
    ensures ProjectRemoveOutcome(ProjectAddOutcome(d, remoteUri, name, newId).doc, remoteUri, newId, true) ==
      Outcome(Ok(newId), d)
  {
    var o := ProjectAddOutcome(d, remoteUri, name, newId);
    DeleteAfterPut(d.projects, newId, o.result.value);
  }

  /** Removal keeps the invariant but leaves the project's containers behind. */
  lemma ProjectRemoveEffects(d: Document, remoteUri: string, projectId: string, confirmed: bool)
    requires WellFormed(d)
    ensures WellFormed(ProjectRemoveOutcome(d, remoteUri, projectId, confirmed).doc)
    ensures var o := ProjectRemoveOutcome(d, remoteUri, projectId, confirmed);
      o.result.Ok? && (exists k :: k in d.containers.vals && d.containers.vals[k].projectId == projectId)
      ==> !References(o.doc)
  {
    var o := ProjectRemoveOutcome(d, remoteUri, projectId, confirmed);
    if o.result.Ok? && exists k :: k in d.containers.vals && d.containers.vals[k].projectId == projectId {
      var k :| k in d.containers.vals && d.containers.vals[k].projectId == projectId;
      assert k in o.doc.containers.vals && o.doc.containers.vals[k].projectId !in o.doc.projects.vals;
    }
  }

  /** The machine `container_add` chose, when it chose one, is registered
      under its own id. */
  lemma ChosenMachineRegistered(d: Document, machineHint: string, placed: Result<Machine>)
    requires WellFormed(d) && (machineHint == "" ==> IsPlacement(d, placed))
    ensures var r := ChosenMachine(d, machineHint, placed);
      r.Ok? ==> r.value.id in d.machines.vals && d.machines.vals[r.value.id] == r.value
  {
    if machineHint == "" {
      PlacementRegistered(d, placed);
    }
  }

  /** `container_add` keeps the invariant and good references: a saved
      container sits on a registered machine and belongs to a known project. */
  lemma ContainerAddKeepsInvariants(d: Document, remoteUri: string, req: ContainerRequest, newId: string,
                                    provisioned: bool, placed: Result<Machine>)
    requires WellFormed(d) && (req.machineHint == "" ==> IsPlacement(d, placed))
    ensures WellFormed(ContainerAddOutcome(d, remoteUri, req, newId, provisioned, placed).doc)
    ensures References(d) ==> References(ContainerAddOutcome(d, remoteUri, req, newId, provisioned, placed).doc)
  {
    var o := ContainerAddOutcome(d, remoteUri, req, newId, provisioned, placed);
    var chosen := ChosenMachine(d, req.machineHint, placed);
    if ParseUri(remoteUri).Ok? && PortList(Split(req.portsStr, ',')).Ok? && req.projectId in d.projects.vals && chosen.Ok? {
      var m := chosen.value;
      var c := o.doc.containers.vals[newId];
      assert m.id in d.machines.vals && d.machines.vals[m.id] == m by {
        ChosenMachineRegistered(d, req.machineHint, placed);
      }
      assert o.doc == d.(containers := Put(d.containers, c.id, c));
      SaveContainerKeepsWellFormed(d, c);
      if References(d) {
        SaveContainerKeepsReferences(d, c);
      }
    }
  }

  /** Storing a container under its own id keeps the document well-formed. */
  lemma SaveContainerKeepsWellFormed(d: Document, c: Container)
    requires WellFormed(d)
    ensures WellFormed(d.(containers := Put(d.containers, c.id, c)))
  {
    var e := d.(containers := Put(d.containers, c.id, c));
    assert e.containers.vals == d.containers.vals[c.id := c];
    forall k | k in e.containers.vals ensures e.containers.vals[k].id == k {
      if k != c.id { assert e.containers.vals[k] == d.containers.vals[k]; }
    }
    assert IdsMatch(e);
  }

  /** Storing a container whose project and machine are known, with that
      machine's host, keeps every container's references good. */
  lemma SaveContainerKeepsReferences(d: Document, c: Container)
    requires References(d)
    requires c.projectId in d.projects.vals && c.machineId in d.machines.vals
    requires d.machines.vals[c.machineId].host == c.host
    ensures References(d.(containers := Put(d.containers, c.id, c)))
  {
    var e := d.(containers := Put(d.containers, c.id, c));
    assert e.containers.vals == d.containers.vals[c.id := c];
    forall k | k in e.containers.vals
      ensures var x := e.containers.vals[k];
        x.projectId in e.projects.vals && x.machineId in e.machines.vals && e.machines.vals[x.machineId].host == x.host
    {
      if k != c.id { assert e.containers.vals[k] == d.containers.vals[k]; }
    }
  }

  /** The record `container_add` saved belongs to the requested, known
      project and sits on a registered machine with that machine's host;
      each of its host ports was asked for explicitly or was free there. */
  lemma ContainerAddSavedRecord(d: Document, remoteUri: string, req: ContainerRequest, newId: string,
                                provisioned: bool, placed: Result<Machine>)
    requires WellFormed(d) && (req.machineHint == "" ==> IsPlacement(d, placed))
    requires Saved(ContainerAddOutcome(d, remoteUri, req, newId, provisioned, placed))
    ensures PortList(Split(req.portsStr, ',')).Ok?
    ensures var c := ContainerAddOutcome(d, remoteUri, req, newId, provisioned, placed).doc.containers.vals[newId];
      && c.id == newId && c.projectId == req.projectId && c.projectId in d.projects.vals
      && c.machineId in d.machines.vals && d.machines.vals[c.machineId].host == c.host
      && forall p :: p in c.ports ==>
           p !in UsedPorts(d, c.machineId) ||
           exists q :: q in PortList(Split(req.portsStr, ',')).value && q.hostPort == Some(p)
  {
    var requested := PortList(Split(req.portsStr, ',')).value;
    var m := ChosenMachine(d, req.machineHint, placed).value;
    ChosenMachineRegistered(d, req.machineHint, placed);
    AllocatedPortsFree(d, m, requested);
    var c := ContainerAddOutcome(d, remoteUri, req, newId, provisioned, placed).doc.containers.vals[newId];
    assert c.ports == AllocatePorts(d, m, requested);
  }

  /** The record `container_add` saved is built from the request on the
      chosen machine (the hinted one or the placement's): that machine's id
      and host, the host ports allocated there, the requested name, distro
      and image; the other containers stay as they were, and the command
      reports what bootstrapping that record gives. */
  lemma ContainerAddSavedOnChosen(d: Document, remoteUri: string, req: ContainerRequest, newId: string,
                                  provisioned: bool, placed: Result<Machine>)
    requires d.Valid() && (req.machineHint == "" ==> IsPlacement(d, placed))
    requires Saved(ContainerAddOutcome(d, remoteUri, req, newId, provisioned, placed))
    ensures ParseUri(remoteUri).Ok? && PortList(Split(req.portsStr, ',')).Ok? && req.projectId in d.projects.vals
    ensures ChosenMachine(d, req.machineHint, placed).Ok?
    ensures var o := ContainerAddOutcome(d, remoteUri, req, newId, provisioned, placed);
      var m := ChosenMachine(d, req.machineHint, placed).value;
      var c := o.doc.containers.vals[newId];
      && c.machineId == m.id && c.host == m.host
      && c.ports == AllocatePorts(d, m, PortList(Split(req.portsStr, ',')).value)
      && c.name == req.name && c.distro == req.distro && c.imageId == req.imageId && c.image == req.image
      && o.doc.containers == Put(d.containers, newId, c)
      && o.result == Bootstrap(c, provisioned)
  {
    ContainerAddSavedGuards(d, remoteUri, req, newId, provisioned, placed);
    ContainerAddSavedChosen(d, remoteUri, req, newId, provisioned, placed);
    ContainerAddOnChosen(d, remoteUri, req, newId, provisioned, placed);
    var m := ChosenMachine(d, req.machineHint, placed).value;
    var c := Container(newId, req.projectId, req.name, req.distro, req.imageId, req.image,
                       m.id, m.host, AllocatePorts(d, m, PortList(Split(req.portsStr, ',')).value));
    assert Put(d.containers, newId, c).vals[newId] == c;
  }

  /** A saved container means the address, the port list and the project
      all passed their checks. */
  lemma ContainerAddSavedGuards(d: Document, remoteUri: string, req: ContainerRequest, newId: string,
                                provisioned: bool, placed: Result<Machine>)
    requires d.Valid()
    requires Saved(ContainerAddOutcome(d, remoteUri, req, newId, provisioned, placed))
    ensures ParseUri(remoteUri).Ok? && PortList(Split(req.portsStr, ',')).Ok? && req.projectId in d.projects.vals
  {
  }

  /** Past those checks, a saved container means a machine was chosen. */
  lemma ContainerAddSavedChosen(d: Document, remoteUri: string, req: ContainerRequest, newId: string,
                                provisioned: bool, placed: Result<Machine>)
    requires d.Valid() && (req.machineHint == "" ==> IsPlacement(d, placed))
    requires ParseUri(remoteUri).Ok? && PortList(Split(req.portsStr, ',')).Ok? && req.projectId in d.projects.vals
    requires Saved(ContainerAddOutcome(d, remoteUri, req, newId, provisioned, placed))
    ensures ChosenMachine(d, req.machineHint, placed).Ok?
  {
    if req.machineHint == "" {
      PlacementRegistered(d, placed);
    }
  }

  /** With every check passed and a machine chosen, the outcome is the
      record built on that machine, stored under the new id. */
  lemma ContainerAddOnChosen(d: Document, remoteUri: string, req: ContainerRequest, newId: string,
                             provisioned: bool, placed: Result<Machine>)
    requires d.Valid()
    requires ParseUri(remoteUri).Ok? && PortList(Split(req.portsStr, ',')).Ok? && req.projectId in d.projects.vals
    requires ChosenMachine(d, req.machineHint, placed).Ok?
    ensures var m := ChosenMachine(d, req.machineHint, placed).value;
      var c := Container(newId, req.projectId, req.name, req.distro, req.imageId, req.image,
                         m.id, m.host, AllocatePorts(d, m, PortList(Split(req.portsStr, ',')).value));
      ContainerAddOutcome(d, remoteUri, req, newId, provisioned, placed) ==
        Outcome(Bootstrap(c, provisioned), d.(containers := Put(d.containers, newId, c)))
  {
  }

  // ------------------------------------------------------- the config object

  /** The loaded document, edited in place by the commands before it is
      saved back. */
  class ClusterConfig {
    var machines: ODict<string, Machine>
    var projects: ODict<string, Project>
    var containers: ODict<string, Container>

    function Snapshot(): Document
      reads this
    {
      Document(machines, projects, containers)
    }

    ghost predicate Valid()
      reads this
    {
      Snapshot().Valid()
    }

    constructor (d: Document)
      requires d.Valid()
      ensures Valid() && Snapshot() == d
    {
      machines := d.machines;
      projects := d.projects;
      containers := d.containers;
    }

    /** `machine_add` */
    method MachineAdd(remoteUri: string, uri: string, newId: string) returns (r: Result<Machine>)
      requires Valid()
      modifies this
      ensures Valid()
      ensures Outcome(r, Snapshot()) == MachineAddOutcome(old(Snapshot()), remoteUri, uri, newId)
    {
      if ParseUri(remoteUri).Err? {
        return Err(ValueError);
      }
      var parsed := ParseUri(uri);
      if parsed.Err? {
        return Err(parsed.error);
      }
      var address := parsed.value;
      // a host already registered is refused
      var i := 0;
      while i < |machines.keys|
        invariant 0 <= i <= |machines.keys|
        invariant forall j :: 0 <= j < i ==> machines.vals[machines.keys[j]].host != address.host
      {
        if machines.vals[machines.keys[i]].host == address.host {
          return Err(DuplicateHost);
        }
        i := i + 1;
      }
      NotTakenByIndex(machines, address.host);
      var machine := Machine(newId, address.user, address.host, address.port);
      machines := Put(machines, newId, machine);
      r := Ok(machine);
    }

    /** `machine_remove` */
    method MachineRemove(remoteUri: string, machineId: string, confirmed: bool) returns (r: Result<string>)
      requires Valid()
      modifies this
      ensures Valid()
      ensures Outcome(r, Snapshot()) == MachineRemoveOutcome(old(Snapshot()), remoteUri, machineId, confirmed)
    {
      if ParseUri(remoteUri).Err? {
        return Err(ValueError);
      }
      // nothing is removed without the operator's confirmation
      if !confirmed {
        return Err(Aborted);
      }
      if machineId !in machines.vals {
        return Err(UnknownMachine);
      }
      machines := Delete(machines, machineId);
      r := Ok(machineId);
    }

    /** `project_add` */
    method ProjectAdd(remoteUri: string, name: string, newId: string) returns (r: Result<Project>)
      requires Valid()
      modifies this
      ensures Valid()
      ensures Outcome(r, Snapshot()) == ProjectAddOutcome(old(Snapshot()), remoteUri, name, newId)
    {
      if ParseUri(remoteUri).Err? {
        return Err(ValueError);
      }
      // a name already in use is refused
      var i := 0;
      while i < |projects.keys|
        invariant 0 <= i <= |projects.keys|
        invariant forall j :: 0 <= j < i ==> projects.vals[projects.keys[j]].name != name
      {
        if projects.vals[projects.keys[i]].name == name {
          return Err(DuplicateProjectName);
        }
        i := i + 1;
      }
      NameNotTakenByIndex(projects, name);
      var project := Project(newId, name);
      projects := Put(projects, newId, project);
      r := Ok(project);
    }

    /** `project_remove` */
    method ProjectRemove(remoteUri: string, projectId: string, confirmed: bool) returns (r: Result<string>)
      requires Valid()
      modifies this
      ensures Valid()
      ensures Outcome(r, Snapshot()) == ProjectRemoveOutcome(old(Snapshot()), remoteUri, projectId, confirmed)
    {
      if ParseUri(remoteUri).Err? {
        return Err(ValueError);
      }
      // nothing is removed without the operator's confirmation
      if !confirmed {
        return Err(Aborted);
      }
      if projectId !in projects.vals {
        return Err(UnknownProject);
      }
      projects := Delete(projects, projectId);
      r := Ok(projectId);
    }

    /** `container_add`; `placed` is what the placement step returned,
        when it ran. */
    method ContainerAdd(remoteUri: string, req: ContainerRequest, newId: string, provisioned: bool)
      returns (r: Result<Container>, ghost placed: Result<Machine>)
      requires Valid()
      modifies this
      ensures Valid()
      ensures PlacementRan(old(Snapshot()), remoteUri, req) ==> IsPlacement(old(Snapshot()), placed)
      ensures Outcome(r, Snapshot()) == ContainerAddOutcome(old(Snapshot()), remoteUri, req, newId, provisioned, placed)
    {
      placed := Err(IndexError);
      if ParseUri(remoteUri).Err? {
        return Err(ValueError), placed;
      }
      var requestedPorts := ParsePorts(req.portsStr);
      if requestedPorts.Err? {
        return Err(requestedPorts.error), placed;
      }
      // the project must be registered
      if req.projectId !in projects.vals {
        return Err(UnknownProject), placed;
      }
      // the hinted machine, or the placement's choice
      var config := Snapshot();
      var chosen: Result<Machine>;
      if req.machineHint != "" {
        chosen := Lookup(machines, req.machineHint);
      } else {
        chosen := FindAvailableMachine(config);
        placed := chosen;
      }
      if chosen.Err? {
        return Err(chosen.error), placed;
      }
      var machine := chosen.value;
      // host ports are allocated on the chosen machine
      var ports := FindAvailableMachinePorts(config, machine, requestedPorts.value);
      var container := Container(newId, req.projectId, req.name, req.distro, req.imageId, req.image,
                                 machine.id, machine.host, ports);
      // the container is saved before it is bootstrapped
      containers := Put(containers, newId, container);
      r := Bootstrap(container, provisioned);
    }
  }

  /** The arguments got `container_add` as far as the placement step. */
  predicate PlacementRan(d: Document, remoteUri: string, req: ContainerRequest) {
    && ParseUri(remoteUri).Ok?
    && PortList(Split(req.portsStr, ',')).Ok?
    && req.projectId in d.projects.vals
    && req.machineHint == ""
  }

  lemma NotTakenByIndex(ms: ODict<string, Machine>, host: string)
    requires ms.Valid()
    requires forall j :: 0 <= j < |ms.keys| ==> ms.vals[ms.keys[j]].host != host
    ensures !HostTaken(ms, host)
  {
    forall k | k in ms.vals ensures ms.vals[k].host != host {
      var j :| 0 <= j < |ms.keys| && ms.keys[j] == k;
    }
  }

  lemma NameNotTakenByIndex(ps: ODict<string, Project>, name: string)
    requires ps.Valid()
    requires forall j :: 0 <= j < |ps.keys| ==> ps.vals[ps.keys[j]].name != name
    ensures !NameTaken(ps, name)
  {
    forall k | k in ps.vals ensures ps.vals[k].name != name {
      var j :| 0 <= j < |ps.keys| && ps.keys[j] == k;
    }
  }
}
