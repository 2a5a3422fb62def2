/** The cluster state document: three insertion-ordered sections keyed by
    id. A replica as stored on one machine may lack a section. */
module Cluster {
  import opened Outcomes
  import opened OrderedDict

  datatype Machine = Machine(id: string, user: string, host: string, port: int)

  datatype Project = Project(id: string, name: string)

  /** `ports` maps host port to container port. An absent image id or
      image (None) is the empty string. */
  datatype Container = Container(
    id: string,
    projectId: string,
    name: string,
    distro: string,
    imageId: string,
    image: string,
    machineId: string,
    host: string,
    ports: map<int, int>)

  /** The merged document every command works on. */
  datatype Document = Document(
    machines: ODict<string, Machine>,
    projects: ODict<string, Project>,
    containers: ODict<string, Container>)
  {
    ghost predicate Valid() {
      machines.Valid() && projects.Valid() && containers.Valid()
    }
  }

  /** One machine's copy as read back; `None` is a section the copy lacks. */
  datatype Replica = Replica(
    machines: Option<ODict<string, Machine>>,
    projects: Option<ODict<string, Project>>,
    containers: Option<ODict<string, Container>>)
  {
    ghost predicate Valid() {
      && (machines.Some? ==> machines.value.Valid())
      && (projects.Some? ==> projects.value.Valid())
      && (containers.Some? ==> containers.value.Valid())
    }
  }

  /** `machines[machine_id]`: the record, or KeyError. */
  function Lookup(machines: ODict<string, Machine>, id: string): (r: Result<Machine>)
    ensures r.Ok? <==> id in machines.vals
    ensures r.Ok? ==> r.value == machines.vals[id]
    ensures r.Err? ==> r.error == KeyError
  {
    if id in machines.vals then Ok(machines.vals[id]) else Err(KeyError)
  }
}
