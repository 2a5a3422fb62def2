/** Machine addresses of the form `[user@]host[:port]` (`parse_uri`,
    `rebuild_uri`). */
module Addresses {
  import opened Outcomes
  import opened Text

  datatype Address = Address(user: string, host: string, port: int)

  const DefaultUser: string := "root"
  const DefaultPort: int := 22

  /** `parse_uri`: split off the user at the one '@' (default "root"), then
      the port at the one ':' of the rest (default 22). A second '@' or ':'
      fails the two-name unpacking and a non-numeric port fails `int()`;
      both raise ValueError. */
  function ParseUri(uri: string): (r: Result<Address>)
    ensures r.Err? ==> r.error == ValueError
    ensures r.Ok? ==> '@' !in r.value.user && '@' !in r.value.host && ':' !in r.value.host
    ensures Occurrences(uri, '@') > 1 ==> r == Err(ValueError)
    ensures '@' !in uri && ':' !in uri ==> r == Ok(Address(DefaultUser, uri, DefaultPort))
  {
    if '@' in uri then
      var parts := Split(uri, '@');
      if |parts| == 2 then ParseHostPort(parts[0], parts[1]) else Err(ValueError)
    else ParseHostPort(DefaultUser, uri)
  }

  /** The second half of `parse_uri`: the host and optional port after the user. */
  function ParseHostPort(user: string, host: string): (r: Result<Address>)
    ensures r.Err? ==> r.error == ValueError
    ensures r.Ok? ==> r.value.user == user && ':' !in r.value.host
    ensures r.Ok? && '@' !in host ==> '@' !in r.value.host
    ensures ':' !in host ==> r == Ok(Address(user, host, DefaultPort))
  {
    if ':' in host then
      var parts := Split(host, ':');
      if |parts| != 2 then Err(ValueError)
      else
        SplitKeepsAbsent(host, ':', '@');
        match ParseInt(parts[1])
        case Ok(port) => Ok(Address(user, parts[0], port))
        case Err(e) => Err(e)
    else Ok(Address(user, host, DefaultPort))
  }

  /** A character absent from a string is absent from all its pieces. */
  lemma {:induction false} SplitKeepsAbsent(s: string, sep: char, c: char)
    ensures c !in s ==> forall i :: 0 <= i < |Split(s, sep)| ==> c !in Split(s, sep)[i]
  {
    if c !in s && s != [] {
      SplitKeepsAbsent(s[1..], sep, c);
      var rest := Split(s[1..], sep);
      if s[0] != sep {
        assert c !in [s[0]] + rest[0];
      }
    }
  }

  /** `'{}@{}:{}'.format(user, host, port)` */
  function FormatUri(a: Address): string {
    a.user + "@" + a.host + ":" + FormatInt(a.port)
  }

  /** `rebuild_uri`: parse, then print the canonical `user@host:port`. */
  function RebuildUri(uri: string): (r: Result<string>)
    ensures r.Ok? <==> ParseUri(uri).Ok?
    ensures r.Err? ==> r.error == ValueError
    ensures r.Ok? ==> r.value == FormatUri(ParseUri(uri).value)
  {
    match ParseUri(uri)
    case Ok(a) => Ok(FormatUri(a))
    case Err(e) => Err(e)
  }

  /** The text an operator may write: optional `user@`, the host, optional `:port`. */
  function ComposeUri(user: Option<string>, host: string, portText: Option<string>): string {
    var hostPart := if portText.Some? then host + ":" + portText.value else host;
    if user.Some? then user.value + "@" + hostPart else hostPart
  }

  /** The accepted shapes of an address: the user defaults to "root", the
      port to 22, and a given port is the `int()` of its text. */
  lemma ParseUriAccepts(user: Option<string>, host: string, portText: Option<string>)
    requires user.Some? ==> '@' !in user.value
    requires '@' !in host && ':' !in host
    requires portText.Some? ==> '@' !in portText.value && ':' !in portText.value
    ensures ParseUri(ComposeUri(user, host, portText)) ==
      var u := if user.Some? then user.value else DefaultUser;
      if portText.None? then Ok(Address(u, host, DefaultPort))
      else match ParseInt(portText.value)
        case Ok(p) => Ok(Address(u, host, p))
        case Err(_) => Err(ValueError)
  {
    var u := if user.Some? then user.value else DefaultUser;
    var hostPart := if portText.Some? then host + ":" + portText.value else host;
    if portText.Some? {
      ParseHostPortWithPort(u, host, portText.value);
    }
    if user.Some? {
      SplitTwo(user.value, hostPart, '@');
    }
  }

  lemma ParseHostPortWithPort(u: string, host: string, portText: string)
    requires ':' !in host && ':' !in portText
    ensures ParseHostPort(u, host + ":" + portText) ==
      match ParseInt(portText)
      case Ok(p) => Ok(Address(u, host, p))
      case Err(_) => Err(ValueError)
  {
    var hostPart := host + ":" + portText;
    assert hostPart[|host|] == ':';
    SplitTwo(host, portText, ':');
  }

  /** More than one ':' after the user part is an unpacking error. */
  lemma ParseUriRejectsColons(user: Option<string>, hostPart: string)
    requires user.Some? ==> '@' !in user.value
    requires '@' !in hostPart && Occurrences(hostPart, ':') > 1
    ensures ParseUri(ComposeUri(user, hostPart, None)) == Err(ValueError)
  {
    assert ':' in hostPart by {
      if ':' !in hostPart { SplitNone(hostPart, ':'); }
    }
    if user.Some? {
      assert ComposeUri(user, hostPart, None) == user.value + ['@'] + hostPart;
      SplitTwo(user.value, hostPart, '@');
    } else {
      assert ComposeUri(user, hostPart, None) == hostPart;
    }
  }

  /** The canonical text of an address parses back to that address. */
  lemma ParseFormatUri(a: Address)
    requires '@' !in a.user && '@' !in a.host && ':' !in a.host
    ensures ParseUri(FormatUri(a)) == Ok(a)
  {
    var t := FormatInt(a.port);
    assert '@' !in t && ':' !in t by {
      forall i | 0 <= i < |t| ensures t[i] != '@' && t[i] != ':' { }
    }
    assert FormatUri(a) == ComposeUri(Some(a.user), a.host, Some(t));
    ParseUriAccepts(Some(a.user), a.host, Some(t));
    ParseFormatInt(a.port);
  }

  /** `parse_uri(rebuild_uri(u)) == parse_uri(u)` whenever `u` parses. */
  lemma RebuildRoundTrip(uri: string)
    requires ParseUri(uri).Ok?
    ensures RebuildUri(uri).Ok?
    ensures ParseUri(RebuildUri(uri).value) == ParseUri(uri)
  {
    ParseFormatUri(ParseUri(uri).value);
  }

  /** `rebuild_uri(rebuild_uri(u)) == rebuild_uri(u)`; it fails exactly when parsing fails. */
  lemma RebuildIdempotent(uri: string)
    ensures RebuildUri(uri).Ok? <==> ParseUri(uri).Ok?
    ensures RebuildUri(uri).Ok? ==> RebuildUri(RebuildUri(uri).value) == RebuildUri(uri)
  {
    if ParseUri(uri).Ok? {
      RebuildRoundTrip(uri);
    }
  }
}
