/** Server registration shared by the client and the worker
    (`addServer`, `addServers`, `getServers` in src/Client.php and
    src/Worker.php, which carry identical copies of the logic). The list
    is a PHP array keyed by "host:port" in registration order. */
module ServerLists {
  import opened Errors
  import opened Strings
  import opened OrderedMaps

  /** Connection::DEFAULT_PORT. */
  const DEFAULT_PORT: int := 4730

  type Servers = OMap<string, bool>

  /** PHP's `empty()` on a string: "" and "0" are empty. */
  predicate IsEmptyString(s: string) {
    s == "" || s == "0"
  }

  /** The guard `!$port > 0` as PHP parses it, `(!$port) > 0`: the negation
      of an int compared with 0. */
  function PortGuardRejects(port: int): bool {
    var negated := port == 0;
    (if negated then 1 else 0) > 0
  }

  /** The guard rejects port 0 and nothing else: negative ports pass. */
  lemma PortGuardRejectsOnlyZero(port: int)
    ensures PortGuardRejects(port) <==> port == 0
  {
  }

  function ServerKey(host: string, port: int): string {
    host + ":" + IntToString(port)
  }

  /** `addServer($host, $port)`. */
  function AddServer(servers: Servers, host: string, port: Option<int>): (r: Result<Servers>)
    requires servers.Valid()
    ensures r.Ok? ==> r.value.Valid()
    ensures IsEmptyString(Trim(host)) ==> r == Err(InvalidHost(Trim(host)))
    ensures !IsEmptyString(Trim(host)) && port == Some(0) ==> r == Err(InvalidPort(0))
    ensures r.Ok? <==>
      && !IsEmptyString(Trim(host))
      && port != Some(0)
      && ServerKey(Trim(host), if port.Some? then port.value else DEFAULT_PORT) !in servers.entries
    ensures r.Ok? ==>
      r.value.keys == servers.keys + [ServerKey(Trim(host), if port.Some? then port.value else DEFAULT_PORT)]
  {
    var h := Trim(host);
    if IsEmptyString(h) then Err(InvalidHost(h))
    else
      var p :=
        match port
        case None => Ok(DEFAULT_PORT)
        case Some(n) => if PortGuardRejects(n) then Err(InvalidPort(n)) else Ok(n);
      if p.Err? then Err(p.error)
      else
        var key := ServerKey(h, p.value);
        if key in servers.entries then Err(ServerAlreadyRegistered(key))
        else Ok(servers.Put(key, true))
  }

  /** The port that reaches `addServer` from one "host[:port]" entry:
      missing is null, and a present token goes through PHP's coercion of a
      string to an `?int` parameter, which takes the number the token
      starts with ("4730abc" is 4730, "1e3" is 1000) and refuses a token
      that does not start with one or whose number is out of range. */
  function EntryPort(parts: seq<string>): Result<Option<int>>
  {
    if |parts| < 2 then Ok(None)
    else match ParseInt(parts[1])
      case None => Err(PortNotInteger(parts[1]))
      case Some(n) => Ok(Some(n))
  }

  /** The "host:port" key one well-formed entry registers. */
  function EntryKey(entry: string): string {
    var parts := Split(entry, ":");
    var port := EntryPort(parts);
    var p := if port.Ok? && port.value.Some? then port.value.value else DEFAULT_PORT;
    ServerKey(Trim(parts[0]), p)
  }

  function EntryKeys(entries: seq<string>): (r: seq<string>)
    ensures |r| == |entries|
  {
    if |entries| == 0 then [] else [EntryKey(entries[0])] + EntryKeys(entries[1..])
  }

  /** One pass of the `foreach` in `addServers`: split the entry on ':'
      and register its host and port. */
  function AddEntry(servers: Servers, entry: string): (r: Result<Servers>)
    requires servers.Valid()
    ensures r.Ok? ==> r.value.Valid() && |r.value.keys| == |servers.keys| + 1
    ensures r.Ok? ==> r.value.keys[..|servers.keys|] == servers.keys
  {
    var parts := Split(entry, ":");
    match EntryPort(parts)
    case Err(e) => Err(e)
    case Ok(port) =>
      var r := AddServer(servers, parts[0], port);
      assert r.Ok? ==> r.value.keys[..|servers.keys|] == servers.keys;
      r
  }

  /** What one entry registers: the host before the first ':' with the
      port the token after it coerces to, no port when there is no ':', and
      an error when the token does not coerce. Anything after a second ':'
      is ignored. */
  lemma AddEntryPort(servers: Servers, entry: string)
    requires servers.Valid()
    ensures var parts := Split(entry, ":");
      |parts| >= 2 && ParseInt(parts[1]).None? ==> AddEntry(servers, entry) == Err(PortNotInteger(parts[1]))
    ensures var parts := Split(entry, ":");
      |parts| >= 2 && ParseInt(parts[1]).Some? ==>
      AddEntry(servers, entry) == AddServer(servers, parts[0], Some(ParseInt(parts[1]).value))
    ensures ':' !in entry ==> AddEntry(servers, entry) == AddServer(servers, entry, None)
  {
    if ':' !in entry {
      SplitWithoutDelimiter(entry, ':');
    }
  }

  /** An entry "host:<integer><text>" registers that host and integer
      when the text cannot continue the number: the text is dropped, as
      PHP's coercion only warns about it. */
  lemma AddEntryLeadingNumeric(servers: Servers, host: string, i: int, junk: string)
    requires servers.Valid()
    requires ':' !in host && ':' !in junk && EndsNumber(junk)
    requires PHP_INT_MIN <= i <= PHP_INT_MAX
    ensures AddEntry(servers, host + ":" + IntToString(i) + junk) == AddServer(servers, host, Some(i))
  {
    var token := IntToString(i) + junk;
    assert ':' !in IntToString(i) by {
      if i < 0 {
        assert IntToString(i) == "-" + NatToString(-i);
      }
    }
    assert [host, token][1..] == [token];
    assert Join([host, token], ":") == host + ":" + token;
    SplitJoin([host, token], ':');
    assert host + ":" + IntToString(i) + junk == host + ":" + token;
    ParseIntIgnoresTrailing(i, junk);
    AddEntryPort(servers, host + ":" + token);
  }

  /** A registered entry adds exactly the key it names. */
  lemma AddEntryKey(servers: Servers, entry: string)
    requires servers.Valid() && AddEntry(servers, entry).Ok?
    ensures AddEntry(servers, entry).value.keys == servers.keys + [EntryKey(entry)]
  {
  }

  /** The outcome of registering a list: the servers registered before the
      first failure stay registered, as they do on the PHP object. */
  datatype Registration = Registration(servers: Servers, error: Option<Error>)

  /** `addServers($list)` for an array: each entry is registered in order
      and the first failure stops the loop. */
  function AddServerList(servers: Servers, entries: seq<string>): (r: Registration)
    requires servers.Valid()
    ensures r.servers.Valid()
    ensures |servers.keys| <= |r.servers.keys| <= |servers.keys| + |entries|
    ensures r.servers.keys[..|servers.keys|] == servers.keys
    ensures r.error.None? ==> |r.servers.keys| == |servers.keys| + |entries|
    decreases |entries|
  {
    if |entries| == 0 then Registration(servers, None)
    else
      match AddEntry(servers, entries[0])
      case Err(e) => Registration(servers, Some(e))
      case Ok(next) =>
        var r := AddServerList(next, entries[1..]);
        assert r.servers.keys[..|next.keys|] == next.keys;
        r
  }

  /** One step of the loop, after an entry that registers. */
  lemma AddServerListStep(servers: Servers, entries: seq<string>)
    requires servers.Valid() && |entries| > 0 && AddEntry(servers, entries[0]).Ok?
    ensures AddServerList(servers, entries) == AddServerList(AddEntry(servers, entries[0]).value, entries[1..])
  {
  }

  /** When every entry registers, the list gains their keys in entry
      order. */
  lemma {:induction false} AddServerListKeys(servers: Servers, entries: seq<string>)
    requires servers.Valid()
    requires AddServerList(servers, entries).error.None?
    ensures AddServerList(servers, entries).servers.keys == servers.keys + EntryKeys(entries)
    decreases |entries|
  {
    if |entries| > 0 {
      var next := AddEntry(servers, entries[0]).value;
      AddServerListStep(servers, entries);
      AddEntryKey(servers, entries[0]);
      AddServerListKeys(next, entries[1..]);
      AppendKey(servers.keys, EntryKey(entries[0]), EntryKeys(entries[1..]), EntryKeys(entries));
    }
  }

  lemma AppendKey(keys: seq<string>, key: string, tail: seq<string>, all: seq<string>)
    requires all == [key] + tail
    ensures keys + all == (keys + [key]) + tail
  {
  }

  /** A list that registers without error registered its first entry. */
  lemma HeadRegisters(servers: Servers, entries: seq<string>)
    requires servers.Valid() && |entries| > 0 && AddServerList(servers, entries).error.None?
    ensures AddEntry(servers, entries[0]).Ok?
  {
  }

  lemma PrefixTail(s: seq<string>, i: nat)
    requires 0 < i < |s|
    ensures |s[..i]| > 0 && s[..i][0] == s[0] && s[..i][1..] == s[1..][..i - 1] && s[1..][i - 1] == s[i]
  {
  }

  /** Entry `i` is where registration fails: the entries before it all
      register and it does not. */
  predicate FailsAt(servers: Servers, entries: seq<string>, i: nat)
    requires servers.Valid()
  {
    && i < |entries|
    && AddServerList(servers, entries[..i]).error.None?
    && AddEntry(AddServerList(servers, entries[..i]).servers, entries[i]).Err?
  }

  /** When entry `i` fails, the list keeps what the entries before it
      registered and reports that entry's error; the entries after it are
      never tried. */
  lemma {:induction false} AddServerListStopsAt(servers: Servers, entries: seq<string>, i: nat)
    requires servers.Valid() && FailsAt(servers, entries, i)
    ensures var before := AddServerList(servers, entries[..i]).servers;
      AddServerList(servers, entries) == Registration(before, Some(AddEntry(before, entries[i]).error))
    decreases i
  {
    if i > 0 {
      var prefix := entries[..i];
      PrefixTail(entries, i);
      HeadRegisters(servers, prefix);
      var next := AddEntry(servers, entries[0]).value;
      AddServerListStep(servers, prefix);
      AddServerListStep(servers, entries);
      assert FailsAt(next, entries[1..], i - 1);
      AddServerListStopsAt(next, entries[1..], i - 1);
    }
  }

  /** A list that reports an error failed at some entry. */
  lemma {:induction false} AddServerListFails(servers: Servers, entries: seq<string>)
    requires servers.Valid() && AddServerList(servers, entries).error.Some?
    ensures exists i: nat :: FailsAt(servers, entries, i)
    decreases |entries|
  {
    assert entries[..0] == [];
    if AddEntry(servers, entries[0]).Err? {
      assert FailsAt(servers, entries, 0);
    } else {
      var next := AddEntry(servers, entries[0]).value;
      AddServerListStep(servers, entries);
      AddServerListFails(next, entries[1..]);
      var j: nat :| FailsAt(next, entries[1..], j);
      PrefixTail(entries, j + 1);
      AddServerListStep(servers, entries[..j + 1]);
      assert FailsAt(servers, entries, j + 1);
    }
  }

  /** `addServers("a,b:1,...")` for a string: split on ',' first. */
  function AddServersString(servers: Servers, list: string): Registration
    requires servers.Valid()
  {
    AddServerList(servers, Split(list, ","))
  }

  /** `getServers()`: the keys in registration order. */
  function GetServers(servers: Servers): seq<string> {
    servers.keys
  }

  /** Host "0" counts as empty and is refused, as PHP's `empty()` has it. */
  lemma HostZeroRejected(servers: Servers)
    requires servers.Valid()
    ensures AddServer(servers, " 0 ", None) == Err(InvalidHost("0"))
  {
    SpacedZeroTrims();
  }

  lemma SpacedZeroTrims()
    ensures Trim(" 0 ") == "0"
  {
    var zero := "0";
    var padded := " " + zero + " ";
    assert padded == " 0 ";
    assert padded[1..] == zero + " ";
    assert TrimLeft(padded) == zero + " ";
    assert (zero + " ")[..1] == zero;
    assert TrimRight(zero + " ") == zero;
  }

  /** Registering with no port is the same as registering with 4730, so the
      second of the two is refused as a duplicate. */
  lemma DefaultPortIsExplicit4730(servers: Servers, host: string)
    requires servers.Valid()
    requires AddServer(servers, host, None).Ok?
    ensures AddServer(AddServer(servers, host, None).value, host, Some(DEFAULT_PORT))
         == Err(ServerAlreadyRegistered(ServerKey(Trim(host), DEFAULT_PORT)))
  {
  }
}
