/** `merge_remote_configs`: the copies fetched from every machine are
    folded into one document, later copies overriding earlier ones key by key. */
module Replication {
  import opened Outcomes
  import opened OrderedDict
  import opened Cluster

  /** `config.get('machines', {})` and its two siblings. */
  function MachinesOf(r: Replica): (d: ODict<string, Machine>)
    ensures r.Valid() ==> d.Valid()
    ensures r.machines.None? ==> d == Empty()
    ensures r.machines.Some? ==> d == r.machines.value
  {
    if r.machines.Some? then r.machines.value else Empty()
  }

  function ProjectsOf(r: Replica): (d: ODict<string, Project>)
    ensures r.Valid() ==> d.Valid()
    ensures r.projects.None? ==> d == Empty()
    ensures r.projects.Some? ==> d == r.projects.value
  {
    if r.projects.Some? then r.projects.value else Empty()
  }

  function ContainersOf(r: Replica): (d: ODict<string, Container>)
    ensures r.Valid() ==> d.Valid()
    ensures r.containers.None? ==> d == Empty()
    ensures r.containers.Some? ==> d == r.containers.value
  {
    if r.containers.Some? then r.containers.value else Empty()
  }

  /** Every replica read back is well-formed. */
  ghost predicate AllValid(rs: seq<Replica>) {
    forall i :: 0 <= i < |rs| ==> rs[i].Valid()
  }

  /** One section of every replica, in replica order. */
  function Sections<V>(rs: seq<Replica>, section: Replica -> ODict<string, V>): (r: seq<ODict<string, V>>)
    ensures |r| == |rs|
    ensures forall i :: 0 <= i < |rs| ==> r[i] == section(rs[i])
  {
    if rs == [] then [] else Sections(rs[..|rs| - 1], section) + [section(rs[|rs| - 1])]
  }

  /** An empty dict updated by every section in turn. */
  function MergeSection<V>(ds: seq<ODict<string, V>>): (r: ODict<string, V>)
    requires forall i :: 0 <= i < |ds| ==> ds[i].Valid()
    ensures r.Valid()
  {
    if ds == [] then Empty() else Update(MergeSection(ds[..|ds| - 1]), ds[|ds| - 1])
  }

  function Merge(rs: seq<Replica>): (d: Document)
    requires AllValid(rs)
    ensures d.Valid()
  {
    Document(
      MergeSection(Sections(rs, MachinesOf)),
      MergeSection(Sections(rs, ProjectsOf)),
      MergeSection(Sections(rs, ContainersOf)))
  }

  /** `merge_remote_configs`: three dicts updated in place, replica by replica. */
  method MergeRemoteConfigs(configs: seq<Replica>) returns (d: Document)
    requires AllValid(configs)
    ensures d == Merge(configs)
  {
    var machines: ODict<string, Machine> := Empty();
    var projects: ODict<string, Project> := Empty();
    var containers: ODict<string, Container> := Empty();
    var i := 0;
    while i < |configs|
      invariant 0 <= i <= |configs|
      invariant Document(machines, projects, containers) == Merge(configs[..i])
    {
      MergeSnoc(configs, i);
      machines := Update(machines, MachinesOf(configs[i]));
      projects := Update(projects, ProjectsOf(configs[i]));
      containers := Update(containers, ContainersOf(configs[i]));
      i := i + 1;
    }
    assert configs[..i] == configs;
    d := Document(machines, projects, containers);
  }

  /** Merging one more replica updates each section of the merge so far. */
  lemma MergeSnoc(rs: seq<Replica>, i: nat)
    requires i < |rs|
    requires AllValid(rs)
    ensures var m := Merge(rs[..i]);
      Merge(rs[..i + 1]) == Document(
        Update(m.machines, MachinesOf(rs[i])),
        Update(m.projects, ProjectsOf(rs[i])),
        Update(m.containers, ContainersOf(rs[i])))
  {
    MergeStep(rs, i, MachinesOf);
    MergeStep(rs, i, ProjectsOf);
    MergeStep(rs, i, ContainersOf);
  }

  /** One more replica is one more update. */
  lemma MergeStep<V>(rs: seq<Replica>, i: nat, section: Replica -> ODict<string, V>)
    requires i < |rs|
    requires forall j :: 0 <= j < |rs| ==> section(rs[j]).Valid()
    ensures MergeSection(Sections(rs[..i + 1], section)) == Update(MergeSection(Sections(rs[..i], section)), section(rs[i]))
  {
    assert rs[..i + 1][..i] == rs[..i];
  }

  /** The key order of a merged section: the order so far, then the keys
      of the next input that were not yet present, in that input's order. */
  lemma MergeSectionOrder<V>(ds: seq<ODict<string, V>>, e: ODict<string, V>)
    requires forall i :: 0 <= i < |ds| ==> ds[i].Valid()
    requires e.Valid()
    ensures MergeSection(ds + [e]).keys == MergeSection(ds).keys + Fresh(e.keys, MergeSection(ds).vals)
  {
    assert (ds + [e])[..|ds|] == ds;
    UpdateKeys(MergeSection(ds), e);
  }

  /** A key is in the merged section exactly when some input has it, and its
      value is the one from the last input that has it. */
  lemma MergeSectionContents<V>(ds: seq<ODict<string, V>>)
    requires forall i :: 0 <= i < |ds| ==> ds[i].Valid()
    ensures forall k :: k in MergeSection(ds).vals <==> exists i :: 0 <= i < |ds| && k in ds[i].vals
    ensures forall i, k :: 0 <= i < |ds| && k in ds[i].vals && (forall j :: i < j < |ds| ==> k !in ds[j].vals) ==>
      MergeSection(ds).vals[k] == ds[i].vals[k]
  {
    forall k ensures k in MergeSection(ds).vals <==> exists i :: 0 <= i < |ds| && k in ds[i].vals {
      MergeSectionHas(ds, k);
    }
    forall i, k | 0 <= i < |ds| && k in ds[i].vals && (forall j :: i < j < |ds| ==> k !in ds[j].vals)
      ensures MergeSection(ds).vals[k] == ds[i].vals[k]
    {
      MergeSectionValue(ds, i, k);
    }
  }

  /** One key: it is merged exactly when some input holds it. */
  lemma {:induction false} MergeSectionHas<V>(ds: seq<ODict<string, V>>, k: string)
    requires forall i :: 0 <= i < |ds| ==> ds[i].Valid()
    ensures k in MergeSection(ds).vals <==> exists i :: 0 <= i < |ds| && k in ds[i].vals
  {
    if ds != [] {
      var init, last := ds[..|ds| - 1], ds[|ds| - 1];
      MergeSectionHas(init, k);
      assert MergeSection(ds).vals == MergeSection(init).vals + last.vals by {
        UpdateVals(MergeSection(init), last);
      }
      if k in last.vals {
        assert k in ds[|ds| - 1].vals;
      } else if k in MergeSection(init).vals {
        var i :| 0 <= i < |init| && k in init[i].vals;
        assert k in ds[i].vals;
      } else {
        forall i | 0 <= i < |ds| ensures k !in ds[i].vals {
          if i < |ds| - 1 { assert ds[i] == init[i]; }
        }
      }
    }
  }

  /** One key: its merged value comes from the last input holding it. */
  lemma {:induction false} MergeSectionValue<V>(ds: seq<ODict<string, V>>, i: nat, k: string)
    requires forall j :: 0 <= j < |ds| ==> ds[j].Valid()
    requires i < |ds| && k in ds[i].vals
    requires forall j :: i < j < |ds| ==> k !in ds[j].vals
    ensures k in MergeSection(ds).vals && MergeSection(ds).vals[k] == ds[i].vals[k]
  {
    var init, last := ds[..|ds| - 1], ds[|ds| - 1];
    assert MergeSection(ds).vals == MergeSection(init).vals + last.vals by {
      UpdateVals(MergeSection(init), last);
    }
    if i < |ds| - 1 {
      assert k !in last.vals;
      assert init[i] == ds[i];
      forall j | i < j < |init| ensures k !in init[j].vals {
        assert init[j] == ds[j];
      }
      MergeSectionValue(init, i, k);
    }
  }

  /** Each section of the merged document (`Merge(rs).machines` is the
      merge of the `MachinesOf` sections, and so on) holds the union of the
      inputs' keys, a missing section counting as empty, each with the value
      of the last input holding it. */
  lemma MergeContents<V>(rs: seq<Replica>, section: Replica -> ODict<string, V>)
    requires forall i :: 0 <= i < |rs| ==> section(rs[i]).Valid()
    ensures forall k :: k in MergeSection(Sections(rs, section)).vals <==> exists i :: 0 <= i < |rs| && k in section(rs[i]).vals
    ensures forall i, k :: 0 <= i < |rs| && k in section(rs[i]).vals && (forall j :: i < j < |rs| ==> k !in section(rs[j]).vals) ==>
      MergeSection(Sections(rs, section)).vals[k] == section(rs[i]).vals[k]
  {
    var ds := Sections(rs, section);
    assert forall j :: 0 <= j < |ds| ==> ds[j].Valid();
    forall k ensures k in MergeSection(ds).vals <==> exists i :: 0 <= i < |rs| && k in section(rs[i]).vals {
      MergeSectionHas(ds, k);
      if k in MergeSection(ds).vals {
        var i :| 0 <= i < |ds| && k in ds[i].vals;
        assert ds[i] == section(rs[i]);
      } else {
        forall i | 0 <= i < |rs| ensures k !in section(rs[i]).vals {
          assert ds[i] == section(rs[i]);
        }
      }
    }
    forall i, k | 0 <= i < |rs| && k in section(rs[i]).vals && (forall j :: i < j < |rs| ==> k !in section(rs[j]).vals)
      ensures MergeSection(ds).vals[k] == section(rs[i]).vals[k]
    {
      forall j | i < j < |ds| ensures k !in ds[j].vals {
        assert ds[j] == section(rs[j]);
      }
      assert ds[i] == section(rs[i]);
      MergeSectionValue(ds, i, k);
    }
  }

  /** Merging no copies gives three empty sections. */
  lemma MergeNothing()
    ensures Merge([]) == Document(Empty(), Empty(), Empty())
  {
  }

  /** Merging one copy gives that copy, a missing section becoming empty. */
  lemma MergeOne(x: Replica)
    requires x.Valid()
    ensures Merge([x]) == Document(MachinesOf(x), ProjectsOf(x), ContainersOf(x))
  {
    MergeOneSection([x], MachinesOf);
    MergeOneSection([x], ProjectsOf);
    MergeOneSection([x], ContainersOf);
  }

  lemma MergeOneSection<V>(rs: seq<Replica>, section: Replica -> ODict<string, V>)
    requires |rs| == 1 && section(rs[0]).Valid()
    ensures MergeSection(Sections(rs, section)) == section(rs[0])
  {
    var ds := Sections(rs, section);
    assert ds[..0] == [];
    UpdateEmpty(section(rs[0]));
  }

  /** Receiving the same copy twice in a row changes nothing. */
  lemma MergeRepeatLast(rs: seq<Replica>, x: Replica)
    requires AllValid(rs)
    requires x.Valid()
    ensures Merge(rs + [x, x]) == Merge(rs + [x])
  {
    var once, twice := rs + [x], rs + [x, x];
    assert twice[..|twice| - 1] == once;
    assert once[..|once| - 1] == rs;
    UpdateIdempotent(MergeSection(Sections(rs, MachinesOf)), MachinesOf(x));
    UpdateIdempotent(MergeSection(Sections(rs, ProjectsOf)), ProjectsOf(x));
    UpdateIdempotent(MergeSection(Sections(rs, ContainersOf)), ContainersOf(x));
  }

  /** `merge([d, d]) == merge([d])` */
  lemma MergeIdempotent(x: Replica)
    requires x.Valid()
    ensures Merge([x, x]) == Merge([x])
  {
    MergeRepeatLast([], x);
    assert [] + [x, x] == [x, x] && [] + [x] == [x];
  }
}
