/** `find_available_machine`: where a new container goes. */
module Placement {
  import opened Outcomes
  import opened OrderedDict
  import opened Text
  import opened Cluster

  /** `[c['machine_id'] for c in containers.values()]`, in dict order. */
  function HostIds(ks: seq<string>, containers: map<string, Container>): (r: seq<string>)
    requires forall i :: 0 <= i < |ks| ==> ks[i] in containers
    ensures |r| == |ks|
    ensures forall i :: 0 <= i < |ks| ==> r[i] == containers[ks[i]].machineId
  {
    if ks == [] then [] else HostIds(ks[..|ks| - 1], containers) + [containers[ks[|ks| - 1]].machineId]
  }

  function ContainerHostIds(d: Document): seq<string>
    requires d.Valid()
  {
    HostIds(d.containers.keys, d.containers.vals)
  }

  /** Number of times `x` occurs in `ids`. */
  function CountOf(ids: seq<string>, x: string): nat {
    if ids == [] then 0
    else CountOf(ids[..|ids| - 1], x) + (if ids[|ids| - 1] == x then 1 else 0)
  }

  /** `counter.update(ids)` on a `Counter`: one more for each occurrence,
      a new key entering at the end. */
  function Tally(c: ODict<string, int>, ids: seq<string>): (r: ODict<string, int>)
    ensures c.Valid() ==> r.Valid()
  {
    if ids == [] then c
    else
      var t := Tally(c, ids[..|ids| - 1]);
      var x := ids[|ids| - 1];
      Put(t, x, Get(t, x, 0) + 1)
  }

  /** The counter built by `find_available_machine`: every registered
      machine id once, then one more per container placed on it. */
  function Occupancy(d: Document): (c: ODict<string, int>)
    requires d.Valid()
    ensures c.Valid()
  {
    Tally(Tally(Empty(), d.machines.keys), ContainerHostIds(d))
  }

  /** The load of a machine id: 1 if it is registered, plus its containers. */
  function Load(d: Document, x: string): nat
    requires d.Valid()
  {
    (if x in d.machines.vals then 1 else 0) + CountOf(ContainerHostIds(d), x)
  }

  /** Position `i` of the counter has the least count, and every later
      position a strictly larger one: `most_common()[-1]`, since
      `most_common` sorts stably by descending count. */
  predicate IsLastLeast(c: ODict<string, int>, i: int)
    requires c.Valid()
  {
    && 0 <= i < |c.keys|
    && (forall j :: 0 <= j < |c.keys| ==> c.vals[c.keys[i]] <= c.vals[c.keys[j]])
    && (forall j :: i < j < |c.keys| ==> c.vals[c.keys[i]] < c.vals[c.keys[j]])
  }

  function HostAt(ms: ODict<string, Machine>, i: int): string
    requires ms.Valid() && 0 <= i < |ms.keys|
  {
    ms.vals[ms.keys[i]].host
  }

  /** Position `i` holds a least host and every earlier machine a strictly
      larger one: `sorted(machines.values(), key=host)[0]` of a stable sort. */
  predicate IsFirstLowestHost(ms: ODict<string, Machine>, i: int)
    requires ms.Valid()
  {
    && 0 <= i < |ms.keys|
    && (forall j :: 0 <= j < |ms.keys| ==> LexLe(HostAt(ms, i), HostAt(ms, j)))
    && (forall j :: 0 <= j < i ==> LexLt(HostAt(ms, i), HostAt(ms, j)))
  }

  /** What `find_available_machine` returns for a document. */
  ghost predicate IsPlacement(d: Document, r: Result<Machine>)
    requires d.Valid()
  {
    if |d.containers.keys| == 0 then
      if |d.machines.keys| == 0 then r == Err(IndexError)
      else exists i :: IsFirstLowestHost(d.machines, i) && r == Ok(d.machines.vals[d.machines.keys[i]])
    else
      var c := Occupancy(d);
      exists i :: IsLastLeast(c, i) && r == Lookup(d.machines, c.keys[i])
  }

  /** A placement that succeeds returns a registered machine; one that
      fails does so with IndexError (no machines, no containers) or
      KeyError (the least loaded id is referenced but not registered). */
  lemma PlacementRegistered(d: Document, r: Result<Machine>)
    requires d.Valid() && IsPlacement(d, r)
    ensures r.Ok? ==> exists k :: k in d.machines.vals && r.value == d.machines.vals[k]
    ensures r.Err? ==> r.error == IndexError || r.error == KeyError
  {
    if |d.containers.keys| == 0 {
      if |d.machines.keys| > 0 {
        var i :| IsFirstLowestHost(d.machines, i) && r == Ok(d.machines.vals[d.machines.keys[i]]);
        assert d.machines.keys[i] in d.machines.vals;
      }
    } else {
      var c := Occupancy(d);
      var i :| IsLastLeast(c, i) && r == Lookup(d.machines, c.keys[i]);
      if r.Ok? {
        assert c.keys[i] in d.machines.vals;
      }
    }
  }

  /** `find_available_machine`. */
  method FindAvailableMachine(d: Document) returns (r: Result<Machine>)
    requires d.Valid()
    ensures IsPlacement(d, r)
  {
    if |d.containers.keys| > 0 {
      // containers exist: the least loaded id, the last of a tie
      var counter: ODict<string, int> := Empty();
      counter := Tally(counter, d.machines.keys);
      counter := Tally(counter, ContainerHostIds(d));
      OccupancyNonEmpty(d);
      var best := LeastCommon(counter);
      r := Lookup(d.machines, counter.keys[best]);
    } else if |d.machines.keys| == 0 {
      r := Err(IndexError);
    } else {
      // no containers: the machine with the smallest host
      var best := LowestHost(d.machines);
      r := Ok(d.machines.vals[d.machines.keys[best]]);
    }
  }

  /** `counter.most_common()[-1]`: the position of the last key with the
      least count. */
  method LeastCommon(counter: ODict<string, int>) returns (best: int)
    requires counter.Valid() && |counter.keys| > 0
    ensures IsLastLeast(counter, best)
  {
    best := 0;
    var j := 1;
    while j < |counter.keys|
      invariant 0 <= best < j <= |counter.keys|
      invariant forall k :: 0 <= k < j ==> counter.vals[counter.keys[best]] <= counter.vals[counter.keys[k]]
      invariant forall k :: best < k < j ==> counter.vals[counter.keys[best]] < counter.vals[counter.keys[k]]
    {
      if counter.vals[counter.keys[j]] <= counter.vals[counter.keys[best]] {
        best := j;
      }
      j := j + 1;
    }
  }

  /** `sorted(machines.values(), key=host)[0]`: the position of the first
      machine with the least host. */
  method LowestHost(ms: ODict<string, Machine>) returns (best: int)
    requires ms.Valid() && |ms.keys| > 0
    ensures IsFirstLowestHost(ms, best)
  {
    best := 0;
    var j := 1;
    LexLeTotal(HostAt(ms, 0), HostAt(ms, 0));
    while j < |ms.keys|
      invariant 0 <= best < j <= |ms.keys|
      invariant forall k :: 0 <= k < j ==> LexLe(HostAt(ms, best), HostAt(ms, k))
      invariant forall k :: 0 <= k < best ==> LexLt(HostAt(ms, best), HostAt(ms, k))
    {
      if LexLt(HostAt(ms, j), HostAt(ms, best)) {
        forall k | 0 <= k < j
          ensures LexLe(HostAt(ms, j), HostAt(ms, k)) && LexLt(HostAt(ms, j), HostAt(ms, k))
        {
          LexLeTotal(HostAt(ms, j), HostAt(ms, best));
          LexLeTransitive(HostAt(ms, j), HostAt(ms, best), HostAt(ms, k));
          if LexLe(HostAt(ms, k), HostAt(ms, j)) {
            LexLeTransitive(HostAt(ms, best), HostAt(ms, k), HostAt(ms, j));
          }
        }
        LexLeTotal(HostAt(ms, j), HostAt(ms, j));
        best := j;
      }
      j := j + 1;
    }
  }

  /** What a counter holds after `update`: old count plus occurrences. */
  lemma {:induction false} TallyCounts(c: ODict<string, int>, ids: seq<string>)
    ensures forall x :: x in Tally(c, ids).vals ==> Tally(c, ids).vals[x] == Get(c, x, 0) + CountOf(ids, x)
  {
    if ids != [] {
      var init := ids[..|ids| - 1];
      var last := ids[|ids| - 1];
      TallyCounts(c, init);
      TallyDomain(c, init);
      assert ids == init + [last];
      var t := Tally(c, init);
      forall x | x in Tally(c, ids).vals ensures Tally(c, ids).vals[x] == Get(c, x, 0) + CountOf(ids, x) {
        if x !in t.vals { CountOfAbsent(init, x); }
      }
    }
  }

  /** The ids a counter holds after `update`: its old ones and the new ones. */
  lemma {:induction false} TallyDomain(c: ODict<string, int>, ids: seq<string>)
    ensures forall x :: x in Tally(c, ids).vals <==> x in c.vals || x in ids
  {
    if ids != [] {
      TallyDomain(c, ids[..|ids| - 1]);
      assert ids == ids[..|ids| - 1] + [ids[|ids| - 1]];
    }
  }

  lemma {:induction false} CountOfAbsent(ids: seq<string>, x: string)
    requires x !in ids
    ensures CountOf(ids, x) == 0
  {
    if ids != [] {
      CountOfAbsent(ids[..|ids| - 1], x);
    }
  }

  lemma {:induction false} CountOfDistinct(ids: seq<string>, x: string)
    requires forall i, j :: 0 <= i < j < |ids| ==> ids[i] != ids[j]
    ensures CountOf(ids, x) == if x in ids then 1 else 0
  {
    if ids != [] {
      var init := ids[..|ids| - 1];
      CountOfDistinct(init, x);
      assert ids == init + [ids[|ids| - 1]];
      assert ids[|ids| - 1] !in init;
    }
  }

  /** Each counter entry is the load of its machine id, and the counter holds
      exactly the registered ids and the ids the containers point to. */
  lemma OccupancyCounts(d: Document)
    requires d.Valid()
    ensures forall x :: x in Occupancy(d).vals <==> x in d.machines.vals || x in ContainerHostIds(d)
    ensures forall x :: x in Occupancy(d).vals ==> Occupancy(d).vals[x] == Load(d, x)
  {
    var base := Tally(Empty(), d.machines.keys);
    TallyDomain(Empty(), d.machines.keys);
    TallyDomain(base, ContainerHostIds(d));
    TallyCounts(Empty(), d.machines.keys);
    TallyCounts(base, ContainerHostIds(d));
    forall x ensures x in d.machines.keys <==> x in d.machines.vals {
    }
    forall x | x in base.vals ensures base.vals[x] == 1 {
      CountOfDistinct(d.machines.keys, x);
    }
  }

  /** The counter lists the registered machines first, in dict order: ties
      are broken towards ids that containers reference but are not registered,
      then towards later-registered machines. */
  lemma OccupancyOrder(d: Document)
    requires d.Valid()
    ensures |d.machines.keys| <= |Occupancy(d).keys|
    ensures Occupancy(d).keys[..|d.machines.keys|] == d.machines.keys
  {
    TallyKeepsOrder(Empty(), d.machines.keys);
    TallyFromEmpty(d.machines.keys);
    TallyKeepsOrder(Tally(Empty(), d.machines.keys), ContainerHostIds(d));
  }

  lemma {:induction false} TallyKeepsOrder(c: ODict<string, int>, ids: seq<string>)
    ensures |c.keys| <= |Tally(c, ids).keys|
    ensures Tally(c, ids).keys[..|c.keys|] == c.keys
  {
    if ids != [] {
      TallyKeepsOrder(c, ids[..|ids| - 1]);
    }
  }

  lemma {:induction false} TallyFromEmpty(ids: seq<string>)
    requires Distinct(ids)
    ensures Tally(Empty(), ids).keys == ids
  {
    if ids != [] {
      var init, x := ids[..|ids| - 1], ids[|ids| - 1];
      assert Tally(Empty(), init).keys == init && x !in Tally(Empty(), init).vals by {
        DistinctInit(ids);
        TallyFromEmpty(init);
        TallyDomain(Empty(), init);
      }
      TallyNewKey(Empty(), ids);
      assert init + [x] == ids;
    }
  }

  /** Counting an id the counter does not hold yet appends it to the order. */
  lemma TallyNewKey(c: ODict<string, int>, ids: seq<string>)
    requires ids != [] && ids[|ids| - 1] !in Tally(c, ids[..|ids| - 1]).vals
    ensures Tally(c, ids).keys == Tally(c, ids[..|ids| - 1]).keys + [ids[|ids| - 1]]
  {
  }

  lemma OccupancyNonEmpty(d: Document)
    requires d.Valid() && |d.containers.keys| > 0
    ensures |Occupancy(d).keys| > 0
  {
    OccupancyCounts(d);
    assert ContainerHostIds(d)[0] in Occupancy(d).vals;
  }

  /** With containers present the chosen id has the least load among all
      registered or referenced ids, and it is the last such id in counter order. */
  lemma PlacementLeastLoaded(d: Document, i: int)
    requires d.Valid() && |d.containers.keys| > 0
    requires IsLastLeast(Occupancy(d), i)
    ensures var id := Occupancy(d).keys[i];
      && (id in d.machines.vals || id in ContainerHostIds(d))
      && (forall x :: x in d.machines.vals || x in ContainerHostIds(d) ==> Load(d, id) <= Load(d, x))
      && (forall j :: i < j < |Occupancy(d).keys| ==> Load(d, id) < Load(d, Occupancy(d).keys[j]))
  {
    var c := Occupancy(d);
    var id := c.keys[i];
    OccupancyCounts(d);
    assert id in c.vals && c.vals[id] == Load(d, id);
    forall x | x in d.machines.vals || x in ContainerHostIds(d) ensures Load(d, id) <= Load(d, x) {
      assert x in c.vals && c.vals[x] == Load(d, x);
      var j :| 0 <= j < |c.keys| && c.keys[j] == x;
      assert c.vals[id] <= c.vals[c.keys[j]];
    }
    forall j | i < j < |c.keys| ensures Load(d, id) < Load(d, c.keys[j]) {
      assert c.keys[j] in c.vals && c.vals[c.keys[j]] == Load(d, c.keys[j]);
    }
  }

  /** The choice is a function of the document: two results that both meet
      the description are equal. */
  lemma PlacementDeterministic(d: Document, r1: Result<Machine>, r2: Result<Machine>)
    requires d.Valid() && IsPlacement(d, r1) && IsPlacement(d, r2)
    ensures r1 == r2
  {
    if |d.containers.keys| == 0 {
      if |d.machines.keys| > 0 {
        var i1 :| IsFirstLowestHost(d.machines, i1) && r1 == Ok(d.machines.vals[d.machines.keys[i1]]);
        var i2 :| IsFirstLowestHost(d.machines, i2) && r2 == Ok(d.machines.vals[d.machines.keys[i2]]);
        FirstLowestUnique(d.machines, i1, i2);
      }
    } else {
      var c := Occupancy(d);
      var i1 :| IsLastLeast(c, i1) && r1 == Lookup(d.machines, c.keys[i1]);
      var i2 :| IsLastLeast(c, i2) && r2 == Lookup(d.machines, c.keys[i2]);
      LastLeastUnique(c, i1, i2);
    }
  }

  lemma FirstLowestUnique(ms: ODict<string, Machine>, i: int, j: int)
    requires ms.Valid() && IsFirstLowestHost(ms, i) && IsFirstLowestHost(ms, j)
    ensures i == j
  {
    assert LexLe(HostAt(ms, i), HostAt(ms, j)) && LexLe(HostAt(ms, j), HostAt(ms, i));
    assert i < j ==> LexLt(HostAt(ms, j), HostAt(ms, i));
    assert j < i ==> LexLt(HostAt(ms, i), HostAt(ms, j));
  }

  lemma LastLeastUnique(c: ODict<string, int>, i: int, j: int)
    requires c.Valid() && IsLastLeast(c, i) && IsLastLeast(c, j)
    ensures i == j
  {
    var vi, vj := c.vals[c.keys[i]], c.vals[c.keys[j]];
    assert vi <= vj && vj <= vi;
    assert i < j ==> vi < vj;
    assert j < i ==> vj < vi;
  }

  /** Machines a, b, c registered in that order and two containers on a. */
  function ExampleDocument(a: Machine, b: Machine, c: Machine, x: Container, y: Container): Document {
    Document(
      ODict(["a", "b", "c"], map["a" := a, "b" := b, "c" := c]),
      ODict([], map[]),
      ODict(["x", "y"], map["x" := x, "y" := y]))
  }

  /** In that document b and c tie at the least load and the last of them,
      c, is chosen (not the lexicographically first). */
  lemma PlacementExample(a: Machine, b: Machine, c: Machine, x: Container, y: Container)
    requires x.machineId == "a" && y.machineId == "a"
    ensures ExampleDocument(a, b, c, x, y).Valid()
    ensures IsPlacement(ExampleDocument(a, b, c, x, y), Ok(c))
  {
    var d := ExampleDocument(a, b, c, x, y);
    ExampleOccupancy(a, b, c, x, y);
    var counter := Occupancy(d);
    ExampleLastLeast(counter);
    assert Lookup(d.machines, counter.keys[2]) == Ok(c) by {
      assert counter.keys[2] == "c";
    }
    assert |d.containers.keys| != 0;
  }

  /** In the example's counter the third id is `most_common()[-1]`. */
  lemma ExampleLastLeast(counter: ODict<string, int>)
    requires counter.Valid() && counter.keys == ["a", "b", "c"]
    requires "a" in counter.vals && "b" in counter.vals && "c" in counter.vals
    requires counter.vals["a"] == 3 && counter.vals["b"] == 1 && counter.vals["c"] == 1
    ensures IsLastLeast(counter, 2)
  {
    var ks := counter.keys;
    forall j | 0 <= j < |ks| ensures counter.vals[ks[2]] <= counter.vals[ks[j]] {
      if j == 0 {
        assert ks[j] == "a";
      } else if j == 1 {
        assert ks[j] == "b";
      } else {
        assert ks[j] == "c";
      }
    }
  }

  lemma ExampleOccupancy(a: Machine, b: Machine, c: Machine, x: Container, y: Container)
    requires x.machineId == "a" && y.machineId == "a"
    ensures ExampleDocument(a, b, c, x, y).Valid()
    ensures var counter := Occupancy(ExampleDocument(a, b, c, x, y));
      && counter.keys == ["a", "b", "c"]
      && counter.vals["a"] == 3 && counter.vals["b"] == 1 && counter.vals["c"] == 1
  {
    var d := ExampleDocument(a, b, c, x, y);
    ExampleHostIds(a, b, c, x, y);
    var counter := Occupancy(d);
    assert Load(d, "a") == 3 && Load(d, "b") == 1 && Load(d, "c") == 1 by {
      ExampleCounts();
    }
    assert counter.vals["a"] == 3 && counter.vals["b"] == 1 && counter.vals["c"] == 1 by {
      assert "a" in d.machines.vals && "b" in d.machines.vals && "c" in d.machines.vals;
      OccupancyCounts(d);
    }
    assert counter.keys == ["a", "b", "c"] by {
      OccupancyCounts(d);
      OccupancyOrder(d);
      KeysCoveredByPrefix(counter, ["a", "b", "c"]);
    }
  }

  lemma ExampleHostIds(a: Machine, b: Machine, c: Machine, x: Container, y: Container)
    requires x.machineId == "a" && y.machineId == "a"
    ensures ExampleDocument(a, b, c, x, y).Valid()
    ensures ContainerHostIds(ExampleDocument(a, b, c, x, y)) == ["a", "a"]
  {
    var d := ExampleDocument(a, b, c, x, y);
    assert d.containers.keys[..1] == ["x"] && ["x"][..0] == [];
  }

  lemma ExampleCounts()
    ensures CountOf(["a", "a"], "a") == 2
    ensures CountOf(["a", "a"], "b") == 0 && CountOf(["a", "a"], "c") == 0
  {
    var ids: seq<string> := ["a", "a"];
    assert ids[..1] == ["a"] && ids[..1][..0] == [];
    CountOfAbsent(ids, "b");
    CountOfAbsent(ids, "c");
  }
}
