/** Port lists written by the operator, `"a:b,c"` (`parse_ports`). */
module PortRequests {
  import opened Outcomes
  import opened Text

  /** One requested mapping: an optional host port and the container port. */
  datatype PortRequest = PortRequest(hostPort: Option<int>, containerPort: int)

  /** One comma-separated entry: `a:b` gives `(int(a), int(b))`, any other
      entry `(None, int(n))`; a second ':' or a non-numeric part is a ValueError. */
  function ParseEntry(n: string): (r: Result<PortRequest>)
    ensures r.Err? ==> r.error == ValueError
    ensures r.Ok? ==> (r.value.hostPort.Some? <==> ':' in n)
  {
    if ':' in n then
      var parts := Split(n, ':');
      if |parts| != 2 then Err(ValueError)
      else match (ParseInt(parts[0]), ParseInt(parts[1]))
        case (Ok(a), Ok(b)) => Ok(PortRequest(Some(a), b))
        case _ => Err(ValueError)
    else match ParseInt(n)
      case Ok(b) => Ok(PortRequest(None, b))
      case Err(e) => Err(e)
  }

  /** An entry without ':' is `(None, int(n))`; `a:b` with no further ':'
      is `(int(a), int(b))`; any part that is not an integer is a ValueError. */
  lemma ParseEntryParts(a: string, b: string)
    requires ':' !in a && ':' !in b
    ensures ParseEntry(a) ==
      match ParseInt(a)
      case Ok(n) => Ok(PortRequest(None, n))
      case Err(_) => Err(ValueError)
    ensures ParseEntry(a + ":" + b) ==
      match (ParseInt(a), ParseInt(b))
      case (Ok(x), Ok(y)) => Ok(PortRequest(Some(x), y))
      case _ => Err(ValueError)
  {
    var n := a + ":" + b;
    assert n[|a|] == ':';
    SplitTwo(a, b, ':');
  }

  /** The entries parsed in order; the first bad entry fails the list. */
  function PortList(entries: seq<string>): (r: Result<seq<PortRequest>>)
    ensures r.Err? ==> r == Err(ValueError)
    ensures r.Ok? ==> |r.value| == |entries|
  {
    if entries == [] then Ok([])
    else match (PortList(entries[..|entries| - 1]), ParseEntry(entries[|entries| - 1]))
      case (Ok(init), Ok(last)) => Ok(init + [last])
      case _ => Err(ValueError)
  }

  /** `parse_ports`: split on ',' and append one pair per entry. */
  method ParsePorts(portsStr: string) returns (r: Result<seq<PortRequest>>)
    ensures r == PortList(Split(portsStr, ','))
  {
    var entries := Split(portsStr, ',');
    var ports: seq<PortRequest> := [];
    var i := 0;
    while i < |entries|
      invariant 0 <= i <= |entries|
      invariant PortList(entries[..i]) == Ok(ports)
    {
      var entry := ParseEntry(entries[i]);
      assert entries[..i + 1][..i] == entries[..i];
      if entry.Err? {
        PortListErrExtends(entries, i + 1);
        return Err(ValueError);
      }
      ports := ports + [entry.value];
      i := i + 1;
    }
    assert entries[..i] == entries;
    r := Ok(ports);
  }

  /** Once a prefix fails, the whole list fails. */
  lemma {:induction false} PortListErrExtends(entries: seq<string>, k: nat)
    requires k <= |entries| && PortList(entries[..k]).Err?
    ensures PortList(entries).Err?
  {
    if k < |entries| {
      var init := entries[..|entries| - 1];
      assert init[..k] == entries[..k];
      PortListErrExtends(init, k);
    } else {
      assert entries[..k] == entries;
    }
  }

  /** The list parses exactly when every entry parses, and then it holds one
      pair per entry, in input order. */
  lemma {:induction false} PortListShape(entries: seq<string>)
    ensures PortList(entries).Ok? <==> forall i :: 0 <= i < |entries| ==> ParseEntry(entries[i]).Ok?
    ensures PortList(entries).Ok? ==>
      && |PortList(entries).value| == |entries|
      && forall i :: 0 <= i < |entries| ==> PortList(entries).value[i] == ParseEntry(entries[i]).value
  {
    if entries != [] {
      var init := entries[..|entries| - 1];
      PortListShape(init);
      assert forall i :: 0 <= i < |init| ==> init[i] == entries[i];
    }
  }

  /** How the tool prints one mapping back: `host:container` or `container`. */
  function FormatEntry(q: PortRequest): string {
    if q.hostPort.Some? then FormatInt(q.hostPort.value) + ":" + FormatInt(q.containerPort)
    else FormatInt(q.containerPort)
  }

  function FormatEntries(qs: seq<PortRequest>): (r: seq<string>)
    ensures |r| == |qs|
    ensures forall i :: 0 <= i < |qs| ==> r[i] == FormatEntry(qs[i])
  {
    if qs == [] then [] else [FormatEntry(qs[0])] + FormatEntries(qs[1..])
  }

  lemma NoSeparatorsInInt(n: int)
    ensures ':' !in FormatInt(n) && ',' !in FormatInt(n)
  {
    var t := FormatInt(n);
    forall i | 0 <= i < |t| ensures t[i] != ':' && t[i] != ',' { }
  }

  /** A printed entry parses back to the same request. */
  lemma ParseFormatEntry(q: PortRequest)
    ensures ParseEntry(FormatEntry(q)) == Ok(q)
    ensures ',' !in FormatEntry(q)
  {
    NoSeparatorsInInt(q.containerPort);
    ParseFormatInt(q.containerPort);
    if q.hostPort.Some? {
      NoSeparatorsInInt(q.hostPort.value);
      ParseFormatInt(q.hostPort.value);
      var t := FormatEntry(q);
      assert t[|FormatInt(q.hostPort.value)|] == ':';
      SplitTwo(FormatInt(q.hostPort.value), FormatInt(q.containerPort), ':');
    }
  }

  /** Any non-empty list of requests, printed as `"a:b,c"`, parses back to itself. */
  lemma PortListRoundTrip(qs: seq<PortRequest>)
    requires |qs| > 0
    ensures PortList(Split(Join(FormatEntries(qs), ','), ',')) == Ok(qs)
  {
    var texts := FormatEntries(qs);
    forall i | 0 <= i < |qs| ensures ',' !in texts[i] && ParseEntry(texts[i]) == Ok(qs[i]) {
      ParseFormatEntry(qs[i]);
    }
    SplitJoin(texts, ',');
    PortListShape(texts);
    var r := PortList(texts);
    assert r.Ok?;
    assert r.value == qs;
  }
}
