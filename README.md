# nspawn cluster state, modelled in Dafny

`nspawn.py` manages a fleet of machines that run systemd-nspawn containers.
It has no central server. Every machine keeps a full copy of one JSON
document with three sections: `machines`, `projects` and `containers`, each a
dict keyed by id. Every command that changes the cluster follows the same
steps (the `list` commands and `container start`, `stop` and `restart` only
read and merge the copies, and save nothing):

1. Read the copies.
2. Merge them into one document.
3. Edit the merged document in memory.
4. Write it back to every machine.

This project models the in-memory part of that cycle:

- parsing machine addresses (`[user@]host[:port]`) and port lists (`a:b,c`);
- merging the copies into one document;
- choosing a machine for a new container (placement);
- choosing host ports for the new container;
- the dictionary edits of `machine add`, `machine remove`, `project add`,
  `project remove` and `container add`.

Modules, one file each:

- `Outcomes` (`outcomes.dfy`): `Option`, `Result`, and the error kinds the
  source raises or exits with.
- `OrderedDict` (`ordered_dict.dfy`): a Python dict as an insertion-ordered
  key sequence plus a map. `Put` is `d[k] = v`, `Delete` is `del d[k]`, and
  `Update` is `d.update(e)`. Placement tie-breaking depends on dict order,
  and so does the merge.
- `Text` (`text.dfy`): the Python built-ins the core relies on:
  - `str.split` with a one-character separator, and `join`;
  - `int()` and `str()` on decimal text;
  - string ordering.
- `Addresses` (`addresses.dfy`): `parse_uri` and `rebuild_uri`.
- `PortRequests` (`port_requests.dfy`): `parse_ports`.
- `Cluster` (`cluster.dfy`): machine, project and container records, the
  merged document, a replica, and `machines[machine_id]`.
- `Replication` (`replication.dfy`): `merge_remote_configs`.
- `Placement` (`placement.dfy`): `find_available_machine`.
- `PortAllocation` (`port_allocation.dfy`): `find_available_machine_port` and
  `find_available_machine_ports`.
- `Commands` (`commands.dfy`): one pure function per command, mapping the
  document before to the result reported and the document saved. The class
  `ClusterConfig` holds the three loaded sections and carries out each
  command in place; each of its methods is proved to agree with its function.

Things the model takes as parameters:

- the fresh id that the source draws from `random` and SHA-1;
- whether the operator answered `y` at the prompt;
- whether provisioning on the remote machine succeeded;
- for `container add`, the result of the placement step.

Three behaviours of the code matter here:

- **Placement ties.** On a tie, placement takes the *last* id in counter
  order: `Counter.most_common()` sorts stably by descending count, and the
  code takes `[-1]`. So with machines a, b, c and two containers on a, the
  choice is c, not b (`Placement.PlacementExample`).
- **Saving before provisioning.** `container add` inserts and saves the
  container *before* it bootstraps it. An unsupported distro or image, or a
  failed provisioning run, still leaves the record in the document
  (`Commands.ContainerAddOutcome`).
- **Merge order.** The merge uses the order the copies arrive in. It does not
  sort them first.

## Model

| member | source | states |
|---|---|---|
| Addresses.ParseUri | nspawn.py:24-38 | Every failure is a ValueError. More than one '@' fails. With no '@' and no ':' the result is user `root`, the whole text as host, and port 22. A success has no '@' in user or host and no ':' in the host. |
| Addresses.ParseHostPort | nspawn.py:30-36 | The host part: with no ':' the port is 22 and the host is kept. A success keeps the user and has no ':' in the host. Every failure is a ValueError. |
| Addresses.ParseUriAccepts | nspawn.py:24-38 | For `[user@]host[:port]` with clean parts: the user defaults to `root`, the port defaults to 22, and a given port is `int(port)`. A non-numeric port is a ValueError. |
| Addresses.ParseUriRejectsColons | nspawn.py:30-33 | A host part with more than one ':' fails with ValueError. |
| Addresses.ParseFormatUri | nspawn.py:19-38 | Parsing `user@host:port` printed from clean parts gives the same triple back. |
| Addresses.RebuildUri | nspawn.py:19-21 | `rebuild_uri` fails exactly when `parse_uri` fails, always with ValueError. Otherwise it is the parsed address printed as `user@host:port`. |
| Addresses.RebuildRoundTrip | nspawn.py:19-21 | For a URI that parses, `parse_uri(rebuild_uri(u)) == parse_uri(u)`. |
| Addresses.RebuildIdempotent | nspawn.py:19-21 | `rebuild_uri` succeeds exactly when `parse_uri` does. Then `rebuild_uri(rebuild_uri(u)) == rebuild_uri(u)`. |
| Text.Split | nspawn.py:26 | `str.split(sep)` gives one more piece than there are separators, and no piece contains the separator. |
| Text.JoinSplit | nspawn.py:44 | Joining the pieces of a split with the separator gives the text back. It models no line of its own: it supports `PortListRoundTrip` for the `split` at this line. |
| Text.SplitJoin | nspawn.py:44 | Splitting a join of separator-free pieces gives the pieces back. It models no line of its own: it supports `PortListRoundTrip` for the `split` at this line. |
| Text.ParseInt | nspawn.py:33 | `int()` fails only with ValueError. |
| Text.ParseFormatInt | nspawn.py:21 | `int(str(n)) == n` for every integer. |
| Text.LexLeTotal | nspawn.py:636 | The string order that sorts hosts is total. |
| Text.LexLeTransitive | nspawn.py:636 | The string order that sorts hosts is transitive. |
| Text.LexLeAntisymmetric | nspawn.py:636 | The string order that sorts hosts is antisymmetric. |
| PortRequests.ParseEntry | nspawn.py:45-49 | An entry has a host port exactly when it contains ':'. Every failure is a ValueError. |
| PortRequests.ParseEntryParts | nspawn.py:45-49 | For ':'-free texts `a` and `b`: entry `a` is `(None, int(a))` and entry `a:b` is `(int(a), int(b))`; a part that is not an integer makes either a ValueError. |
| PortRequests.PortList | nspawn.py:44-51 | Parsing the entries in order either fails with ValueError or gives one pair per entry. |
| PortRequests.ParsePorts | nspawn.py:41-53 | The loop that appends one pair per comma-separated entry yields the list specification of the split input. |
| PortRequests.PortListShape | nspawn.py:41-53 | The list parses exactly when every entry parses. It then holds one pair per entry, in input order, each the parse of its entry. |
| PortRequests.PortListErrExtends | nspawn.py:44-51 | A bad entry fails the whole list, whatever follows it. |
| PortRequests.ParseFormatEntry | nspawn.py:45-49 | An entry printed as `host:container` or `container` parses back to the same pair and contains no ','. |
| PortRequests.PortListRoundTrip | nspawn.py:41-53 | Printing a non-empty pair list joined by ',' and parsing it gives the list back. |
| OrderedDict.Put | nspawn.py:756 | `d[k] = v`: the map gains `k -> v`. A new key goes at the end of the order; an existing key keeps its place. |
| OrderedDict.Delete | nspawn.py:781 | `del d[k]` on a present key: the map loses exactly `k`, and the order loses `k` at its position, the other keys keeping their order. |
| OrderedDict.Update | nspawn.py:542 | `d.update(e)` keeps a well-formed dict well-formed; its values and order are given by `UpdateVals` and `UpdateKeys`. |
| OrderedDict.UpdateVals | nspawn.py:542 | `d.update(e)` gives the map union in which `e` wins. |
| OrderedDict.UpdateKeys | nspawn.py:542 | `d.update(e)` keeps `d`'s key order and then appends `e`'s keys that `d` did not hold, in `e`'s order. |
| OrderedDict.PutAllKeys | nspawn.py:542 | Assigning distinct keys one by one keeps the old order and appends the keys that were new, in assignment order. |
| OrderedDict.PutAllKeepsOrder | nspawn.py:542 | `update` keeps the existing keys in place at the front of the order. |
| OrderedDict.UpdateEmpty | nspawn.py:542 | Updating an empty dict with `e` gives `e`, order included. |
| OrderedDict.UpdateIdempotent | nspawn.py:542 | Updating twice with the same dict equals updating once. |
| OrderedDict.DeleteAfterPut | nspawn.py:756-781 | Deleting a key just inserted fresh gives the original dict back, order included. |
| Cluster.Lookup | nspawn.py:956-957 | `machines[machine_id]` returns the record when the id is present and raises KeyError otherwise. |
| Replication.MachinesOf | nspawn.py:541 | `config.get('machines', {})`: a missing section is the empty dict, a present one is taken as is. |
| Replication.ProjectsOf | nspawn.py:545 | `config.get('projects', {})`: a missing section is the empty dict, a present one is taken as is. |
| Replication.ContainersOf | nspawn.py:549 | `config.get('containers', {})`: a missing section is the empty dict, a present one is taken as is. |
| Replication.MergeSection | nspawn.py:539-550 | Updating an empty dict with each copy's section in turn gives a well-formed dict; its contents are given by `MergeSectionContents` and its order by `MergeSectionOrder`. |
| Replication.Merge | nspawn.py:534-558 | The merge of well-formed copies is a well-formed document with exactly the three sections. |
| Replication.MergeRemoteConfigs | nspawn.py:534-558 | The loop that updates three dicts in place, copy by copy, yields the merge specification. |
| Replication.MergeSnoc | nspawn.py:539-550 | One more copy updates each section of the merge so far with that copy's section. |
| Replication.MergeSectionContents | nspawn.py:539-550 | A key is in a merged section exactly when some input has it. Its value is the one from the last input holding it. |
| Replication.MergeSectionHas | nspawn.py:539-550 | For one key: it is in the merged section exactly when some input holds it. |
| Replication.MergeSectionValue | nspawn.py:539-550 | For one key: the merged value is the one from the last input holding it. |
| Replication.MergeSectionOrder | nspawn.py:539-550 | One more copy keeps the merged key order and appends that copy's new keys in the copy's order. |
| Replication.MergeContents | nspawn.py:539-550 | The same two laws for each section of the merged document, a missing section counting as empty. |
| Replication.MergeNothing | nspawn.py:534-558 | Merging no copies gives three empty sections. |
| Replication.MergeOne | nspawn.py:534-558 | Merging one copy gives that copy, with a missing section as empty. |
| Replication.MergeRepeatLast | nspawn.py:534-558 | Receiving the same copy twice in a row changes nothing. |
| Replication.MergeIdempotent | nspawn.py:534-558 | `merge([d, d]) == merge([d])`. |
| Placement.Tally | nspawn.py:629-631 | `Counter.update` keeps a well-formed counter well-formed. |
| Placement.TallyCounts | nspawn.py:629-631 | After `update`, each count is the old count plus the id's occurrences. |
| Placement.TallyDomain | nspawn.py:629-631 | After `update`, a counter holds exactly its old ids and the new ones. |
| Placement.Occupancy | nspawn.py:627-631 | The counter `find_available_machine` builds is well-formed; its contents and order are given by `OccupancyCounts` and `OccupancyOrder`. |
| Placement.OccupancyCounts | nspawn.py:627-631 | The counter holds exactly the registered ids and the ids containers refer to. Each id's count is 1 if registered, plus its number of containers. |
| Placement.OccupancyOrder | nspawn.py:627-631 | The registered machine ids come first in the counter, in registry order. |
| Placement.OccupancyNonEmpty | nspawn.py:627-631 | With at least one container, the counter is non-empty. |
| Placement.FindAvailableMachine | nspawn.py:621-639 | The result meets the placement specification. No containers and no machines gives IndexError. No containers gives the first machine with the least host. Otherwise the result is the lookup of the last id with the least count. |
| Placement.IsPlacement | nspawn.py:621-639 | The placement specification itself: IndexError with no containers and no machines; with no containers, the first machine with the least host; otherwise the lookup of the last id with the least count. |
| Placement.LeastCommon | nspawn.py:632 | `most_common()[-1]` is the last position holding the least count. |
| Placement.LowestHost | nspawn.py:636-637 | `sorted(..., key=host)[0]` is the first machine whose host is least. |
| Placement.PlacementLeastLoaded | nspawn.py:625-633 | With containers present, a successful placement returns a registered machine with the least load. Every id coming later in counter order has a strictly greater load. |
| Placement.PlacementDeterministic | nspawn.py:621-639 | At most one result meets the placement specification. |
| Placement.PlacementRegistered | nspawn.py:621-639 | A successful placement returns a registered machine. A failed one fails with IndexError or KeyError. |
| Placement.ExampleOccupancy | nspawn.py:627-631 | For machines a, b, c and two containers on a, the counter is a:3, b:1, c:1 in that order. |
| Placement.PlacementExample | nspawn.py:621-639 | For that document, placement picks c, the last of the tied ids. |
| PortAllocation.PortStart | nspawn.py:659-663 | The start is the port itself or the port plus 10000. It is at least 10000 for non-negative ports, and a port of 10000 or more is its own start. |
| PortAllocation.AboveShrinks | nspawn.py:664-665 | Each probe of a used port leaves fewer used ports above the next probe, so probing terminates. |
| PortAllocation.LeastFreeFrom | nspawn.py:664-665 | The probe result is the least port at or above the start that is not in use. |
| PortAllocation.UsedPorts | nspawn.py:643-656 | The used ports of a machine are exactly the host ports of the containers stored on it. |
| PortAllocation.UsedPortsStep | nspawn.py:643-656 | Scanning one more container adds its host ports only when it is on the machine. |
| PortAllocation.FindAvailableMachinePort | nspawn.py:642-667 | The nested scan and the probe loop return the least port at or above the start that no container on the machine uses. Containers on other machines are ignored. |
| PortAllocation.ChosenHostPort | nspawn.py:673-677 | A truthy explicit host port is used verbatim. A missing or zero one is the least free port at or above its start. |
| PortAllocation.AllocatePorts | nspawn.py:670-680 | The port map built request by request; its keys and values are given by `AllocatePortsContents`. |
| PortAllocation.FindAvailableMachinePorts | nspawn.py:670-680 | The loop yields the allocation specification. |
| PortAllocation.AllocatePortsContents | nspawn.py:670-680 | The keys are exactly the chosen host ports. Each maps to the container port of the last request choosing it. |
| PortAllocation.AllocatedPortsFree | nspawn.py:670-680 | Each allocated host port was either requested explicitly or free on the machine. |
| PortAllocation.AllocateIgnoresOwnChoices | nspawn.py:670-680 | On a machine with no used ports, requests for 80 and 10080 both get 10080, and only `10080 -> 10080` survives. |
| PortAllocation.PortEscalation | nspawn.py:659-665 | Port 80 on a free machine maps as 10080, and as 10081 when 10080 is in use. |
| Commands.MachineAddOutcome | nspawn.py:732-756 | An address that does not parse is a ValueError. It succeeds exactly when both addresses parse and no machine has the host, and otherwise fails with DuplicateHost. It then stores exactly one new record under the new id. Other sections are unchanged, and a failure changes nothing. |
| Commands.MachineRemoveOutcome | nspawn.py:766-781 | A parse failure is ValueError. An unconfirmed prompt is Aborted, and a missing id is UnknownMachine; a failure changes nothing. Otherwise exactly that key is deleted, the remaining machines keep their order, and the other sections are unchanged. |
| Commands.ProjectAddOutcome | nspawn.py:812-833 | A parse failure is ValueError. It succeeds exactly when the address parses and no project has the name, and otherwise fails with DuplicateProjectName. It then stores exactly one new record. The other sections are unchanged. |
| Commands.ProjectRemoveOutcome | nspawn.py:843-858 | A parse failure is ValueError. An unconfirmed prompt is Aborted, and a missing id is UnknownProject; a failure changes nothing. Otherwise exactly that key is deleted, the remaining projects keep their order, and the other sections are unchanged. |
| Commands.Bootstrap | nspawn.py:976-984 | Only plain `arch` with no image id and no image can succeed, and only if provisioning succeeds, returning the saved record. Any other distro, or an image id or image, is NotImplemented whether or not provisioning would succeed. A failed provisioning of plain `arch` is ProvisioningFailed. |
| Commands.ContainerAddOutcome | nspawn.py:924-984 | A bad remote address or port list is ValueError, and an unknown project is UnknownProject. When no machine can be chosen, the result is the choice's error (KeyError for an unregistered hinted id; IndexError or KeyError from placement) and the document is unchanged. Machines and projects are never changed. Every failure before the save leaves the document unchanged. Success stores the returned record under the new id with the requested project. |
| Commands.MachineAddKeepsInvariants | nspawn.py:737-756 | With a fresh id, `machine add` keeps hosts distinct, ids matching their keys, and container references good. |
| Commands.MachineAddTwice | nspawn.py:737-741 | Adding an address whose host was just added fails with DuplicateHost and changes nothing. |
| Commands.MachineAddThenRemove | nspawn.py:737-781 | A confirmed removal of a machine just added under a fresh id restores the document. |
| Commands.MachineRemoveEffects | nspawn.py:776-781 | Removal keeps the invariant. Removing a machine that still hosts containers leaves those containers pointing at no machine. |
| Commands.ProjectAddKeepsInvariants | nspawn.py:816-833 | With a fresh id, `project add` keeps names distinct, ids matching, and references good. |
| Commands.ProjectAddTwice | nspawn.py:816-820 | Adding a name that was just added fails with DuplicateProjectName and changes nothing. |
| Commands.ProjectAddThenRemove | nspawn.py:816-858 | A confirmed removal of a project just added under a fresh id restores the document. |
| Commands.ProjectRemoveEffects | nspawn.py:853-858 | Removal keeps the invariant. Removing a project that still has containers leaves those containers pointing at no project. |
| Commands.ChosenMachineRegistered | nspawn.py:956-959 | The machine `container add` uses, hinted or placed, is registered under its own id. |
| Commands.ChosenMachine | nspawn.py:956-959 | A given machine id is looked up: the registered record, or KeyError. Without one, the placement result is used. |
| Commands.ContainerAddKeepsInvariants | nspawn.py:935-970 | `container add` keeps the invariant and good references. |
| Commands.SaveContainerKeepsWellFormed | nspawn.py:961-970 | Storing a container under its own id keeps ids matching, hosts and names distinct. |
| Commands.SaveContainerKeepsReferences | nspawn.py:961-970 | Storing a container whose project and machine exist, with that machine's host, keeps every reference good. |
| Commands.ContainerAddSavedRecord | nspawn.py:935-970 | When the container was saved: it has the new id and the requested, known project; it sits on a registered machine and carries that machine's host; each of its host ports was requested explicitly or is free on that machine. |
| Commands.ContainerAddSavedOnChosen | nspawn.py:935-970 | When the container was saved: every check passed and a machine was chosen (the hinted one or the placement's); the record carries that machine's id and host, the ports allocated on it and the requested name, distro and images; the other containers are unchanged (the record is stored under the new id), and the reported result is the bootstrap of that record. |
| Commands.ClusterConfig.MachineAdd | nspawn.py:732-756 | The duplicate-host loop and the in-place insert give the result and the new sections that `MachineAddOutcome` specifies. |
| Commands.ClusterConfig.MachineRemove | nspawn.py:766-781 | The in-place delete agrees with `MachineRemoveOutcome`. |
| Commands.ClusterConfig.ProjectAdd | nspawn.py:812-833 | The duplicate-name loop and the insert agree with `ProjectAddOutcome`. |
| Commands.ClusterConfig.ProjectRemove | nspawn.py:843-858 | The in-place delete agrees with `ProjectRemoveOutcome`. |
| Commands.ClusterConfig.ContainerAdd | nspawn.py:924-984 | When placement ran, it met the placement specification. The result and new sections agree with `ContainerAddOutcome` for that placement. |

## Left out

- Remote execution over SSH is not modelled: the `ssh_client` calls and the arch provisioning steps. Provisioning is one success flag.
- Reading and writing copies on the machines is not modelled (JSON, shlex quoting, network). Neither are the consensus load and save around the merge, with their skip-or-abort prompts and `sys.exit` calls. The merge takes the fetched copies as its input.
- The local preference file is not modelled, so the remote address and project id are always given.
- Id generation is not modelled: `random` and SHA-1 give a 12-character id, which the model takes as a parameter. The lemmas assume it is fresh.
- Printing is not modelled: the `list` tables and the success messages.
- The argument parser, `container_migrate`, `container_remove` and the start/stop commands are not part of this model.
- Text.ParseInt: covers an optional sign and ASCII decimal digits only. It does not model the whitespace stripping, `_` separators or non-ASCII digits that Python's `int()` also accepts.
- Container port maps are keyed by integers. In the stored JSON the keys are strings, and `int(c_src_port)` converts them back. The insertion order of a container's port map is not kept, because only printing uses it.
- Records with missing fields (which would raise KeyError in the source) are not modelled: every record has every field.
- Placement.Tally: `Counter.update` is a library call, so it is modelled as a function. It is not modelled as a loop.
- Commands.ClusterConfig.ContainerAdd: the `start` flag only affects provisioning, so it is not modelled.
