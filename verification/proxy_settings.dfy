/**
 * The proxy list settings screen: the pure updates its closures apply to the
 * stored proxy settings (activate, remove, drag-to-reorder), the
 * revealed-options rule, change detection on the screen state, the list of
 * entries with its comparator, and the shared text listing every proxy.
 *
 * Localised strings, ping times (a floating-point round trip time), percent
 * encoding and the serialisation of MTProto secrets are not part of this
 * model: the status text is kept as the kind of text shown, and the two
 * encoders are parameters.
 */
module ProxySettings {
  import opened Wrappers
  import opened Text

  // ---------------------------------------------------------------------
  // Settings
  // ---------------------------------------------------------------------

  type Byte = b: int | 0 <= b < 256

  datatype Connection =
    | Socks5(username: Option<string>, password: Option<string>)
    | Mtp(secret: seq<Byte>)

  datatype Server = Server(host: string, port: Int32, connection: Connection)

  datatype Settings = Settings(enabled: bool, servers: seq<Server>, activeServer: Option<Server>, useForCalls: bool)

  /** Position of the first occurrence of `x` in `s` (`index(of:)`). */
  function FirstIndex(s: seq<Server>, x: Server): (r: nat)
    requires x in s
    ensures r < |s| && s[r] == x && x !in s[..r]
  {
    if s[0] == x then 0 else
      assert s[1..][..|s| - 1] == s[1..];
      var i := FirstIndex(s[1..], x);
      assert s[..i + 1] == [s[0]] + s[1..][..i];
      i + 1
  }

  /** `s` without the first occurrence of `x`; `s` itself when `x` does not occur. */
  function RemoveFirst(s: seq<Server>, x: Server): (r: seq<Server>)
    ensures x in s ==> |r| == |s| - 1
    ensures x !in s ==> r == s
  {
    if x in s then s[..FirstIndex(s, x)] + s[FirstIndex(s, x) + 1..] else s
  }

  /** `s` without any occurrence of `x`: what a move of `x` must leave in place. */
  function Without(s: seq<Server>, x: Server): (r: seq<Server>)
    ensures x !in r
  {
    if |s| == 0 then []
    else (if s[0] == x then [] else [s[0]]) + Without(s[1..], x)
  }

  lemma {:induction false} WithoutAppend(a: seq<Server>, b: seq<Server>, x: Server)
    ensures Without(a + b, x) == Without(a, x) + Without(b, x)
  {
    if |a| == 0 {
      assert a + b == b;
    } else {
      assert (a + b)[1..] == a[1..] + b;
      WithoutAppend(a[1..], b, x);
    }
  }

  /** `activateServer`: a listed server that is not already active becomes active and turns proxying on. */
  function ActivateServer(current: Settings, server: Server): (r: Settings)
    ensures current.activeServer != Some(server) && server in current.servers ==>
      r == current.(activeServer := Some(server), enabled := true)
    ensures !(current.activeServer != Some(server) && server in current.servers) ==> r == current
  {
    if current.activeServer != Some(server) && server in current.servers then
      current.(activeServer := Some(server), enabled := true)
    else current
  }

  /** After activation the server is active exactly when it is listed. */
  lemma ActivatedServerIsActive(current: Settings, server: Server)
    ensures ActivateServer(current, server).activeServer == Some(server) <==>
      server in current.servers || current.activeServer == Some(server)
    ensures ActivateServer(current, server).servers == current.servers
  {
  }

  /**
   * `removeServer`: the first occurrence of a listed server is deleted, and if
   * it was the active one proxying stops; an unlisted server changes nothing.
   */
  function RemoveServer(current: Settings, server: Server): (r: Settings)
    ensures server !in current.servers ==> r == current
    ensures server in current.servers ==>
      && r.servers == RemoveFirst(current.servers, server)
      && (current.activeServer == Some(server) ==> r.activeServer.None? && !r.enabled)
      && (current.activeServer != Some(server) ==> r.activeServer == current.activeServer && r.enabled == current.enabled)
      && r.useForCalls == current.useForCalls
  {
    if server in current.servers then
      var current := current.(servers := RemoveFirst(current.servers, server));
      if current.activeServer == Some(server) then current.(activeServer := None, enabled := false) else current
    else current
  }

  lemma WithoutSingle(x: Server)
    ensures Without([x], x) == []
  {
    assert [x][1..] == [];
  }

  /** `s` is the part before the first copy of `x`, that copy, and the rest; removal drops the middle. */
  lemma RemoveFirstSplit(s: seq<Server>, x: Server)
    requires x in s
    ensures var i := FirstIndex(s, x);
            && s == s[..i] + [x] + s[i + 1..]
            && RemoveFirst(s, x) == s[..i] + s[i + 1..]
  {
    SplitAround(s, FirstIndex(s, x));
  }

  lemma SplitAround<T>(s: seq<T>, i: int)
    requires 0 <= i < |s|
    ensures s == s[..i] + [s[i]] + s[i + 1..]
  {
    assert s[i..] == [s[i]] + s[i + 1..];
    assert s == s[..i] + s[i..];
  }

  /** Deleting the first copy of `x` leaves the other servers, in order. */
  lemma RemoveFirstKeepsOthers(s: seq<Server>, x: Server)
    ensures Without(RemoveFirst(s, x), x) == Without(s, x)
  {
    if x in s {
      var i := FirstIndex(s, x);
      var a, b := s[..i], s[i + 1..];
      RemoveFirstSplit(s, x);
      WithoutAppend(a + [x], b, x);
      WithoutAppend(a, [x], x);
      WithoutAppend(a, b, x);
      WithoutSingle(x);
    }
  }

  /** Deleting the first copy of a listed `x` removes one copy of it. */
  lemma RemoveFirstMultiset(s: seq<Server>, x: Server)
    requires x in s
    ensures multiset(RemoveFirst(s, x)) == multiset(s) - multiset{x}
  {
    var i := FirstIndex(s, x);
    RemoveFirstSplit(s, x);
    assert multiset(s) == multiset(s[..i]) + multiset{x} + multiset(s[i + 1..]);
  }

  /** Removal keeps every other server, in order, and drops exactly one copy of the removed one. */
  lemma RemoveServerKeepsOthers(current: Settings, server: Server)
    ensures Without(RemoveServer(current, server).servers, server) == Without(current.servers, server)
    ensures server in current.servers ==>
      multiset(RemoveServer(current, server).servers) == multiset(current.servers) - multiset{server}
  {
    RemoveFirstKeepsOthers(current.servers, server);
    if server in current.servers {
      RemoveFirstMultiset(current.servers, server);
    }
  }

  /** `toggleEnabled` and `toggleUseForCalls`: one field is replaced. */
  function WithEnabled(current: Settings, value: bool): (r: Settings)
    ensures r.enabled == value && r.(enabled := current.enabled) == current
  {
    current.(enabled := value)
  }

  function WithUseForCalls(current: Settings, value: bool): (r: Settings)
    ensures r.useForCalls == value && r.(useForCalls := current.useForCalls) == current
  {
    current.(useForCalls := value)
  }

  // ---------------------------------------------------------------------
  // Screen state
  // ---------------------------------------------------------------------

  datatype State = State(editing: bool, revealedServer: Option<Server>)

  /**
   * `setServerWithRevealedOptions(server, fromServer)`: closing is honoured
   * only for the server currently revealed, opening only when nothing was
   * revealed before.
   */
  function SetServerWithRevealedOptions(state: State, server: Option<Server>, fromServer: Option<Server>): (r: State)
    ensures r.editing == state.editing
    ensures r.revealedServer == server || r == state
    ensures r != state ==> (server.None? && fromServer == state.revealedServer) || (server.Some? && fromServer.None?)
  {
    if (server.None? && fromServer == state.revealedServer) || (server.Some? && fromServer.None?) then
      state.(revealedServer := server)
    else state
  }

  /** The rule, both ways: the revealed server becomes `server` exactly under its two conditions. */
  lemma RevealedServerRule(state: State, server: Option<Server>, fromServer: Option<Server>)
    ensures SetServerWithRevealedOptions(state, server, fromServer).revealedServer == server <==>
      || (server.None? && fromServer == state.revealedServer)
      || (server.Some? && fromServer.None?)
      || state.revealedServer == server
  {
  }

  /** `updateState`: the new state, and whether it is published, which happens only when it differs. */
  function UpdateState(current: State, f: State -> State): (r: (State, bool))
    ensures r.0 == f(current)
    ensures r.1 <==> f(current) != current
  {
    var updated := f(current);
    (updated, updated != current)
  }

  /** Applying an update a second time publishes nothing when the update is idempotent. */
  lemma RepeatedUpdateIsSilent(current: State, f: State -> State)
    requires forall s :: f(f(s)) == f(s)
    ensures !UpdateState(UpdateState(current, f).0, f).1
  {
    assert f(f(current)) == f(current);
  }

  // ---------------------------------------------------------------------
  // Entries
  // ---------------------------------------------------------------------

  datatype ConnectionStatus = WaitingForNetwork | Connecting | Updating | Online

  /** What the status checker reports for a server; a server it has not reported on is being checked. */
  datatype Availability = Checking | NotAvailable | Available

  /** The kind of status text shown under a server. */
  datatype StatusText =
    | WaitingForNetworkText
    | ConnectingText
    | ConnectedText(withPing: bool)
    | KindText(socks5: bool, availability: Availability)

  datatype DisplayStatus = DisplayStatus(activity: bool, text: StatusText, textActive: bool)

  datatype Entry =
    | Enabled(value: bool, createsNew: bool)
    | ServersHeader
    | AddServer(addEditing: bool)
    | ServerItem(index: int, server: Server, active: bool, status: DisplayStatus, editing: bool, revealed: bool, itemEnabled: bool)
    | ShareProxyList
    | UseForCalls(useForCallsValue: bool)
    | UseForCallsInfo

  /** The status line of a server: the connection state for the server in use, its availability otherwise. */
  function ServerStatus(settings: Settings, server: Server, statuses: map<Server, Availability>, connection: ConnectionStatus)
    : (r: DisplayStatus)
    ensures r.activity || r.textActive ==> settings.enabled && settings.activeServer == Some(server)
    ensures r.textActive <==> settings.enabled && settings.activeServer == Some(server) && connection == Online
    ensures settings.enabled && settings.activeServer == Some(server) ==>
      && (r.activity <==> connection != Online)
      && (connection == WaitingForNetwork ==> r.text == WaitingForNetworkText)
      && (connection == Connecting || connection == Updating ==> r.text == ConnectingText)
      && (connection == Online ==> r.text == ConnectedText(server in statuses && statuses[server] == Available))
    ensures !(settings.enabled && settings.activeServer == Some(server)) ==>
      r.text == KindText(server.connection.Socks5?, if server in statuses then statuses[server] else Checking)
  {
    var status := if server in statuses then statuses[server] else Checking;
    if settings.enabled && settings.activeServer == Some(server) then
      match connection
      case WaitingForNetwork => DisplayStatus(true, WaitingForNetworkText, false)
      case Connecting => DisplayStatus(true, ConnectingText, false)
      case Updating => DisplayStatus(true, ConnectingText, false)
      case Online => DisplayStatus(false, ConnectedText(status == Available), true)
    else
      DisplayStatus(false, KindText(server.connection.Socks5?, status), false)
  }

  function ServerEntries(settings: Settings, servers: seq<Server>, start: int, state: State,
                         statuses: map<Server, Availability>, connection: ConnectionStatus): (r: seq<Entry>)
    ensures |r| == |servers|
    ensures forall i :: 0 <= i < |servers| ==>
      r[i] == ServerItem(start + i, servers[i], Some(servers[i]) == settings.activeServer,
                         ServerStatus(settings, servers[i], statuses, connection),
                         state.editing, state.revealedServer == Some(servers[i]), settings.enabled)
  {
    if |servers| == 0 then []
    else
      var head := ServerItem(start, servers[0], Some(servers[0]) == settings.activeServer,
                             ServerStatus(settings, servers[0], statuses, connection),
                             state.editing, state.revealedServer == Some(servers[0]), settings.enabled);
      [head] + ServerEntries(settings, servers[1..], start + 1, state, statuses, connection)
  }

  predicate ActiveIsSocks5(settings: Settings) {
    settings.activeServer.Some? && settings.activeServer.value.connection.Socks5?
  }

  function ShareEntries(settings: Settings): seq<Entry> {
    if |settings.servers| > 0 then [ShareProxyList] else []
  }

  function CallsEntries(settings: Settings): seq<Entry> {
    if ActiveIsSocks5(settings) then [UseForCalls(settings.useForCalls), UseForCallsInfo] else []
  }

  /**
   * `proxySettingsControllerEntries`: the switch, the header and the add
   * button, one item per server in list order, the share button when there
   * is a server, and the calls switch with its note when the active server is
   * a SOCKS5 proxy.
   */
  function ProxyEntries(state: State, settings: Settings, statuses: map<Server, Availability>, connection: ConnectionStatus)
    : (r: seq<Entry>)
    ensures |r| == 3 + |settings.servers| + (if |settings.servers| > 0 then 1 else 0) + (if ActiveIsSocks5(settings) then 2 else 0)
  {
    [Enabled(settings.enabled, |settings.servers| == 0), ServersHeader, AddServer(state.editing)]
    + ServerEntries(settings, settings.servers, 0, state, statuses, connection)
    + ShareEntries(settings)
    + CallsEntries(settings)
  }

  /** The fixed head, then the servers in list order, each with its position as index. */
  lemma EntriesHeadAndServers(state: State, settings: Settings, statuses: map<Server, Availability>, connection: ConnectionStatus)
    ensures var r := ProxyEntries(state, settings, statuses, connection);
            && r[..3] == [Enabled(settings.enabled, |settings.servers| == 0), ServersHeader, AddServer(state.editing)]
            && forall i :: 0 <= i < |settings.servers| ==>
                 r[3 + i].ServerItem? && r[3 + i].index == i && r[3 + i].server == settings.servers[i]
                 && r[3 + i].active == (Some(settings.servers[i]) == settings.activeServer)
                 && r[3 + i].revealed == (state.revealedServer == Some(settings.servers[i]))
                 && r[3 + i].status == ServerStatus(settings, settings.servers[i], statuses, connection)
                 && r[3 + i].editing == state.editing && r[3 + i].itemEnabled == settings.enabled
  {
    var r := ProxyEntries(state, settings, statuses, connection);
    var head := [Enabled(settings.enabled, |settings.servers| == 0), ServersHeader, AddServer(state.editing)];
    var items := ServerEntries(settings, settings.servers, 0, state, statuses, connection);
    var tail := ShareEntries(settings) + CallsEntries(settings);
    assert r == head + items + tail;
    assert r[..3] == head;
    forall i | 0 <= i < |items|
      ensures r[3 + i] == items[i]
    {
      assert (head + items + tail)[3 + i] == items[i];
    }
  }

  /** The share button is there exactly when there is a server, the calls switch exactly when the active server is SOCKS5. */
  lemma EntriesShareAndCalls(state: State, settings: Settings, statuses: map<Server, Availability>, connection: ConnectionStatus)
    ensures var r := ProxyEntries(state, settings, statuses, connection);
            && (ShareProxyList in r <==> |settings.servers| > 0)
            && (UseForCalls(settings.useForCalls) in r <==> ActiveIsSocks5(settings))
            && (forall v :: UseForCalls(v) in r ==> v == settings.useForCalls)
  {
    var head := [Enabled(settings.enabled, |settings.servers| == 0), ServersHeader, AddServer(state.editing)];
    var items := ServerEntries(settings, settings.servers, 0, state, statuses, connection);
    assert forall e :: e in items ==> e.ServerItem?;
    assert ShareProxyList !in head + items + CallsEntries(settings);
    assert forall v :: UseForCalls(v) !in head + items + ShareEntries(settings);
  }

  /** The display rank of each kind of entry. */
  function Rank(e: Entry): nat {
    match e
    case Enabled(_, _) => 0
    case ServersHeader => 1
    case AddServer(_) => 2
    case ServerItem(_, _, _, _, _, _, _) => 3
    case ShareProxyList => 4
    case UseForCalls(_) => 5
    case UseForCallsInfo => 6
  }

  /**
   * The entry comparator as written: kinds in display order and servers by
   * index, except that the share button counts as less than itself and as
   * not less than the calls switch that follows it.
   */
  predicate EntryLessAsWritten(lhs: Entry, rhs: Entry) {
    match lhs
    case Enabled(_, _) => !rhs.Enabled?
    case ServersHeader => !(rhs.Enabled? || rhs.ServersHeader?)
    case AddServer(_) => !(rhs.Enabled? || rhs.ServersHeader? || rhs.AddServer?)
    case ServerItem(lhsIndex, _, _, _, _, _, _) =>
      if rhs.Enabled? || rhs.ServersHeader? || rhs.AddServer? then false
      else if rhs.ServerItem? then lhsIndex < rhs.index
      else true
    case ShareProxyList => !(rhs.Enabled? || rhs.ServersHeader? || rhs.AddServer? || rhs.ServerItem? || rhs.UseForCalls?)
    case UseForCalls(_) =>
      !(rhs.Enabled? || rhs.ServersHeader? || rhs.AddServer? || rhs.ServerItem? || rhs.ShareProxyList? || rhs.UseForCalls?)
    case UseForCallsInfo => false
  }

  /** The comparator as written is not a strict order, and it misorders the entries it is given. */
  lemma EntryLessAsWrittenNotStrict(v: bool)
    ensures EntryLessAsWritten(ShareProxyList, ShareProxyList)
    ensures !EntryLessAsWritten(ShareProxyList, UseForCalls(v)) && !EntryLessAsWritten(UseForCalls(v), ShareProxyList)
  {
  }

  /** The entries of a SOCKS5 setup hold the share button right before the calls switch, which the written comparator does not put in order. */
  lemma AsWrittenMisordersEntries(state: State, settings: Settings, statuses: map<Server, Availability>, connection: ConnectionStatus)
    requires |settings.servers| > 0 && ActiveIsSocks5(settings)
    ensures var r := ProxyEntries(state, settings, statuses, connection);
            exists i :: 0 <= i < |r| - 1 && !EntryLessAsWritten(r[i], r[i + 1])
  {
    var r := ProxyEntries(state, settings, statuses, connection);
    var i := |r| - 3;
    assert r[i] == ShareProxyList && r[i + 1] == UseForCalls(settings.useForCalls);
  }

  /** The comparator with the share button ordered before the calls switch and not before itself. */
  predicate EntryLess(lhs: Entry, rhs: Entry) {
    Rank(lhs) < Rank(rhs) || (lhs.ServerItem? && rhs.ServerItem? && lhs.index < rhs.index)
  }

  /** The two comparators agree on every pair that does not involve the share button with itself or with the calls switch. */
  lemma ComparatorsAgreeElsewhere(lhs: Entry, rhs: Entry)
    requires !(lhs.ShareProxyList? && (rhs.ShareProxyList? || rhs.UseForCalls?))
    ensures EntryLessAsWritten(lhs, rhs) <==> EntryLess(lhs, rhs)
  {
  }

  lemma EntryLessIsStrict(a: Entry, b: Entry, c: Entry)
    ensures !EntryLess(a, a)
    ensures EntryLess(a, b) && EntryLess(b, c) ==> EntryLess(a, c)
  {
  }

  predicate Ordered(entries: seq<Entry>) {
    forall i :: 0 <= i < |entries| - 1 ==> EntryLess(entries[i], entries[i + 1])
  }

  /** Two ordered runs stay ordered when the last of the first comes before the first of the second. */
  lemma OrderedAppend(a: seq<Entry>, b: seq<Entry>)
    requires Ordered(a) && Ordered(b)
    requires |a| > 0 && |b| > 0 ==> EntryLess(a[|a| - 1], b[0])
    ensures Ordered(a + b)
  {
    var ab := a + b;
    forall i | 0 <= i < |ab| - 1 ensures EntryLess(ab[i], ab[i + 1]) {
      if i < |a| - 1 {
        assert ab[i] == a[i] && ab[i + 1] == a[i + 1];
      } else if i == |a| - 1 {
        assert ab[i] == a[|a| - 1] && ab[i + 1] == b[0];
      } else {
        assert ab[i] == b[i - |a|] && ab[i + 1] == b[i - |a| + 1];
      }
    }
  }

  /** With the corrected comparator the built entries are in order. */
  lemma EntriesOrdered(state: State, settings: Settings, statuses: map<Server, Availability>, connection: ConnectionStatus)
    ensures Ordered(ProxyEntries(state, settings, statuses, connection))
  {
    var head := [Enabled(settings.enabled, |settings.servers| == 0), ServersHeader, AddServer(state.editing)];
    var items := ServerEntries(settings, settings.servers, 0, state, statuses, connection);
    var share := ShareEntries(settings);
    var calls := CallsEntries(settings);
    assert Ordered(items) by {
      forall i | 0 <= i < |items| - 1 ensures EntryLess(items[i], items[i + 1]) {
        assert items[i].index == i && items[i + 1].index == i + 1;
      }
    }
    OrderedAppend(head, items);
    var a := head + items;
    assert |items| > 0 ==> a[|a| - 1] == items[|items| - 1];
    OrderedAppend(a, share);
    var b := a + share;
    assert b[|b| - 1].ServerItem? || b[|b| - 1].ShareProxyList? || b[|b| - 1] == AddServer(state.editing);
    OrderedAppend(b, calls);
  }

  // ---------------------------------------------------------------------
  // Drag to reorder
  // ---------------------------------------------------------------------

  /** Where a dragged server goes: next to a reference server, or to one end of the list. */
  datatype Target = Reference(server: Server) | BeforeAll | AfterAll

  /**
   * The drop target: the server shown at `toIndex`; otherwise the start of
   * the list when the entry there sorts before the dragged one, else the end.
   */
  function ReorderTarget(entries: seq<Entry>, from: Entry, toIndex: nat): (r: Target)
    requires from.ServerItem?
    ensures r.Reference? <==> toIndex < |entries| && entries[toIndex].ServerItem?
    ensures r.Reference? ==> r == Reference(entries[toIndex].server)
    ensures r == BeforeAll <==> toIndex < |entries| && Rank(entries[toIndex]) < 3
    ensures r == AfterAll <==> toIndex >= |entries| || Rank(entries[toIndex]) > 3
  {
    if toIndex < |entries| then
      if entries[toIndex].ServerItem? then Reference(entries[toIndex].server)
      else if EntryLessAsWritten(entries[toIndex], from) then BeforeAll
      else AfterAll
    else AfterAll
  }

  /** A position holding `x` with no `x` before it is the first index of `x`. */
  lemma {:induction false} FirstIndexIsFirst(s: seq<Server>, x: Server, i: nat)
    requires i < |s| && s[i] == x
    requires forall k :: 0 <= k < i ==> s[k] != x
    ensures FirstIndex(s, x) == i
  {
    if i > 0 {
      FirstIndexIsFirst(s[1..], x, i - 1);
    }
  }

  /** Where `x` lands in `rest`: just after (`down`) or just before the first `reference`, else at the end. */
  function InsertionPoint(rest: seq<Server>, reference: Server, down: bool): (k: nat)
    ensures k <= |rest|
  {
    if reference in rest then
      if down then FirstIndex(rest, reference) + 1 else FirstIndex(rest, reference)
    else |rest|
  }

  /** Reference placement of the dragged server `x` into the list `rest` that no longer holds it. */
  function Place(rest: seq<Server>, x: Server, target: Target, down: bool): (r: seq<Server>)
    ensures |r| == |rest| + 1
  {
    match target
    case BeforeAll => [x] + rest
    case AfterAll => rest + [x]
    case Reference(reference) =>
      var k := InsertionPoint(rest, reference, down);
      rest[..k] + [x] + rest[k..]
  }

  /** The insertion loop: scans for the first `reference` and inserts `x` next to it, or appends `x`. */
  method InsertNear(servers: seq<Server>, x: Server, reference: Server, down: bool) returns (r: seq<Server>)
    ensures r == Place(servers, x, Reference(reference), down)
  {
    var i := 0;
    while i < |servers|
      invariant 0 <= i <= |servers|
      invariant forall k :: 0 <= k < i ==> servers[k] != reference
    {
      if servers[i] == reference {
        FirstIndexIsFirst(servers, reference, i);
        if down {
          r := servers[..i + 1] + [x] + servers[i + 1..];
        } else {
          r := servers[..i] + [x] + servers[i..];
        }
        return;
      }
      i := i + 1;
    }
    assert servers[..|servers|] == servers;
    r := servers + [x];
  }

  /**
   * `reorderEntry`: dragging the entry at `fromIndex` onto `toIndex`. A
   * dragged entry that is not a server changes nothing; otherwise the
   * server's first occurrence is removed and it is placed next to the
   * target, and nothing else in the settings changes.
   */
  method Reorder(current: Settings, entries: seq<Entry>, fromIndex: nat, toIndex: nat) returns (r: Settings)
    requires fromIndex < |entries|
    ensures !entries[fromIndex].ServerItem? ==> r == current
    ensures entries[fromIndex].ServerItem? ==>
      var x := entries[fromIndex].server;
      r == current.(servers := Place(RemoveFirst(current.servers, x), x,
                                     ReorderTarget(entries, entries[fromIndex], toIndex), fromIndex < toIndex))
  {
    var from := entries[fromIndex];
    if !from.ServerItem? {
      return current;
    }
    var rest := RemoveFirst(current.servers, from.server);
    var servers;
    match ReorderTarget(entries, from, toIndex) {
      case Reference(reference) =>
        servers := InsertNear(rest, from.server, reference, fromIndex < toIndex);
      case BeforeAll =>
        servers := [from.server] + rest;
      case AfterAll =>
        servers := rest + [from.server];
    }
    r := current.(servers := servers);
  }

  /** Moving `x` to any position of the list without it keeps the other servers in their order. */
  lemma MoveKeepsOthers(s: seq<Server>, x: Server, a: seq<Server>, b: seq<Server>)
    requires a + b == RemoveFirst(s, x)
    ensures Without(a + [x] + b, x) == Without(s, x)
    ensures multiset(a + [x] + b) == multiset(RemoveFirst(s, x)) + multiset{x}
  {
    InsertedIsDropped(a, b, x);
    RemoveFirstKeepsOthers(s, x);
    assert multiset(a + [x] + b) == multiset(a) + multiset{x} + multiset(b);
  }

  /** Dropping every `x` undoes inserting one. */
  lemma InsertedIsDropped(a: seq<Server>, b: seq<Server>, x: Server)
    ensures Without(a + [x] + b, x) == Without(a + b, x)
  {
    WithoutAppend(a + [x], b, x);
    WithoutAppend(a, [x], x);
    WithoutAppend(a, b, x);
    WithoutSingle(x);
    assert Without(a, x) + [] == Without(a, x);
  }

  /** Drag-to-reorder only moves the dragged server: every other server keeps its relative order. */
  lemma ReorderKeepsOthers(s: seq<Server>, x: Server, target: Target, down: bool)
    ensures Without(Place(RemoveFirst(s, x), x, target, down), x) == Without(s, x)
    ensures multiset(Place(RemoveFirst(s, x), x, target, down)) == multiset(RemoveFirst(s, x)) + multiset{x}
  {
    var rest := RemoveFirst(s, x);
    match target
    case BeforeAll =>
      assert [x] + rest == [] + [x] + rest;
      MoveKeepsOthers(s, x, [], rest);
    case AfterAll =>
      assert rest + [x] == rest + [x] + [];
      MoveKeepsOthers(s, x, rest, []);
    case Reference(reference) =>
      var k := InsertionPoint(rest, reference, down);
      assert rest[..k] + rest[k..] == rest;
      MoveKeepsOthers(s, x, rest[..k], rest[k..]);
  }

  /** Dragging a listed server permutes the list: no server is gained or lost. */
  lemma ReorderIsPermutation(s: seq<Server>, x: Server, target: Target, down: bool)
    requires x in s
    ensures multiset(Place(RemoveFirst(s, x), x, target, down)) == multiset(s)
  {
    ReorderKeepsOthers(s, x, target, down);
    RemoveFirstMultiset(s, x);
  }

  /** Moving down puts the dragged server right after the reference, moving up right before it. */
  lemma ReorderNextToReference(rest: seq<Server>, x: Server, reference: Server, down: bool)
    requires reference in rest
    ensures var r := Place(rest, x, Reference(reference), down);
            var i := FirstIndex(rest, reference);
            if down then r[i] == reference && r[i + 1] == x else r[i] == x && r[i + 1] == reference
  {
  }

  // ---------------------------------------------------------------------
  // Share list
  // ---------------------------------------------------------------------

  /**
   * The link for one server. `percentEncode` stands for
   * `addingPercentEncoding(withAllowedCharacters: .urlQueryValueAllowed)` and
   * `serializeSecret` for parsing and re-serialising an MTProto secret; a
   * missing result of either becomes the empty string.
   */
  function ServerLink(server: Server, percentEncode: string -> Option<string>, serializeSecret: seq<Byte> -> Option<string>)
    : (r: string)
    ensures server.connection.Mtp? ==>
      r == "https://t.me/proxy?server=" + server.host + "&port=" + Decimal(server.port)
           + "&secret=" + percentEncode(serializeSecret(server.connection.secret).GetOr("")).GetOr("")
    ensures server.connection.Socks5? ==>
      IsPrefix("https://t.me/socks?server=" + server.host + "&port=" + Decimal(server.port), r)
    ensures server.connection.Socks5? && server.connection.username.Some? && server.connection.password.Some? ==>
      r == "https://t.me/socks?server=" + server.host + "&port=" + Decimal(server.port)
           + "&user=" + percentEncode(server.connection.username.value).GetOr("")
           + "&pass=" + percentEncode(server.connection.password.value).GetOr("")
    ensures server.connection.Socks5? && (server.connection.username.None? || server.connection.password.None?) ==>
      r == "https://t.me/socks?server=" + server.host + "&port=" + Decimal(server.port)
    ensures |r| > 0
  {
    match server.connection
    case Mtp(secret) =>
      var secretText := serializeSecret(secret).GetOr("");
      "https://t.me/proxy?server=" + server.host + "&port=" + Decimal(server.port)
        + "&secret=" + percentEncode(secretText).GetOr("")
    case Socks5(username, password) =>
      var base := "https://t.me/socks?server=" + server.host + "&port=" + Decimal(server.port);
      var credentials :=
        if username.Some? && password.Some? then
          "&user=" + percentEncode(username.value).GetOr("") + "&pass=" + percentEncode(password.value).GetOr("")
        else "";
      assert (base + credentials)[..|base|] == base;
      base + credentials
  }

  /**
   * The shared text, as the loop builds it: each link is appended, preceded
   * by a blank line whenever the text so far is not empty.
   */
  function ShareText(servers: seq<Server>, percentEncode: string -> Option<string>, serializeSecret: seq<Byte> -> Option<string>)
    : (r: string)
    ensures r == "" <==> |servers| == 0
  {
    if |servers| == 0 then ""
    else
      var result := ShareText(servers[..|servers| - 1], percentEncode, serializeSecret);
      var result := if result != "" then result + "\n\n" else result;
      result + ServerLink(servers[|servers| - 1], percentEncode, serializeSecret)
  }

  function Links(servers: seq<Server>, percentEncode: string -> Option<string>, serializeSecret: seq<Byte> -> Option<string>)
    : (r: seq<string>)
    ensures |r| == |servers|
  {
    if |servers| == 0 then []
    else
      Links(servers[..|servers| - 1], percentEncode, serializeSecret)
      + [ServerLink(servers[|servers| - 1], percentEncode, serializeSecret)]
  }

  /** The i-th link is the link of the i-th server. */
  lemma {:induction false} LinksAt(servers: seq<Server>, percentEncode: string -> Option<string>,
                                   serializeSecret: seq<Byte> -> Option<string>, i: int)
    requires 0 <= i < |servers|
    ensures Links(servers, percentEncode, serializeSecret)[i] == ServerLink(servers[i], percentEncode, serializeSecret)
  {
    if i < |servers| - 1 {
      var init := servers[..|servers| - 1];
      LinksAt(init, percentEncode, serializeSecret, i);
    }
  }

  lemma {:induction false} JoinSnoc(parts: seq<string>, p: string, sep: string)
    requires |parts| > 0
    ensures Join(parts + [p], sep) == Join(parts, sep) + sep + p
  {
    if |parts| == 1 {
      assert (parts + [p])[1..] == [p];
    } else {
      assert (parts + [p])[1..] == parts[1..] + [p];
      JoinSnoc(parts[1..], p, sep);
    }
  }

  /** The shared text is the servers' links joined with a blank line. */
  lemma {:induction false} ShareTextIsJoin(servers: seq<Server>, percentEncode: string -> Option<string>, serializeSecret: seq<Byte> -> Option<string>)
    ensures ShareText(servers, percentEncode, serializeSecret) == Join(Links(servers, percentEncode, serializeSecret), "\n\n")
  {
    if |servers| > 1 {
      var init := servers[..|servers| - 1];
      ShareTextIsJoin(init, percentEncode, serializeSecret);
      JoinSnoc(Links(init, percentEncode, serializeSecret), ServerLink(servers[|servers| - 1], percentEncode, serializeSecret), "\n\n");
    }
  }
}
