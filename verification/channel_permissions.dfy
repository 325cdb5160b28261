/**
 * The group-permissions screen: dependencies between banned rights, the
 * normalisation applied before the default rights are sent, the toggle
 * applied when a permission switch changes, the revealed-options rule, the
 * list of entries and their ordering.
 *
 * Localised titles, themes and the rendering of participants are not part of
 * this model: entries keep only the data the logic decides.
 */
module ChannelPermissions {
  import opened Wrappers
  import opened Text
  import opened TelegramChannel

  type PeerId = int

  // ---------------------------------------------------------------------
  // Dependencies and normalisation
  // ---------------------------------------------------------------------

  /** The eight rights the screen shows, in display order. */
  const AllGroupPermissionList: seq<BanFlag> := [
    BanSendMessages, BanSendMedia, BanSendGifs, BanEmbedLinks,
    BanSendPolls, BanAddMembers, BanPinMessages, BanChangeInfo]

  /** Rights that a public group may not hand to its members. */
  const PublicGroupRestrictedPermissions: set<BanFlag> := {BanPinMessages, BanChangeInfo}

  /** Rights whose ban presupposes another: media, gifs, links and polls need messages. */
  predicate NeedsSendMessages(f: BanFlag) {
    f == BanSendMedia || f == BanSendGifs || f == BanEmbedLinks || f == BanSendPolls
  }

  /**
   * `groupPermissionDependencies`: the first listed right found in `right`
   * decides; media, gifs, links and polls depend on sending messages, the
   * others on nothing.
   */
  function GroupPermissionDependencies(right: set<BanFlag>): (r: set<BanFlag>)
    ensures r == {BanSendMessages} <==> exists f :: f in right && NeedsSendMessages(f)
    ensures r == {} <==> forall f :: f in right ==> !NeedsSendMessages(f)
  {
    if BanSendMedia in right then {BanSendMessages}
    else if BanSendGifs in right then {BanSendMessages}
    else if BanEmbedLinks in right then {BanSendMessages}
    else if BanSendPolls in right then {BanSendMessages}
    else if BanChangeInfo in right then {}
    else if BanAddMembers in right then {}
    else if BanPinMessages in right then {}
    else {}
  }

  /** For a single right: it depends on sending messages exactly when it needs them. */
  lemma DependenciesOfOne(f: BanFlag)
    ensures GroupPermissionDependencies({f}) == if NeedsSendMessages(f) then {BanSendMessages} else {}
  {
    assert f in {f};
  }

  /** Flags `completeRights` leaves exactly as it found them. */
  predicate KeptByCompleteRights(f: BanFlag) {
    f != BanReadMessages && f != BanSendStickers && f != BanSendGifs && f != BanSendGames && f != BanSendInline
  }

  /**
   * `completeRights`: read access is never banned; stickers, gifs and games
   * are banned together exactly when gifs are; inline bots are banned exactly
   * when links are; every other flag is kept.
   */
  function CompleteRights(flags: set<BanFlag>): (r: set<BanFlag>)
    ensures BanReadMessages !in r
    ensures BanSendGifs in r <==> BanSendGifs in flags
    ensures BanSendGifs in r ==> BanSendStickers in r && BanSendGames in r
    ensures BanSendGifs !in r ==> BanSendStickers !in r && BanSendGames !in r
    ensures BanSendInline in r <==> BanEmbedLinks in r
    ensures forall f :: KeptByCompleteRights(f) ==> (f in r <==> f in flags)
  {
    var result := flags - {BanReadMessages};
    var result := if BanSendGifs in result then result + {BanSendStickers, BanSendGifs, BanSendGames}
                  else result - {BanSendStickers, BanSendGifs, BanSendGames};
    if BanEmbedLinks in result then result + {BanSendInline} else result - {BanSendInline}
  }

  /** Normalising twice is normalising once. */
  lemma CompleteRightsIdempotent(flags: set<BanFlag>)
    ensures CompleteRights(CompleteRights(flags)) == CompleteRights(flags)
  {
    var once := CompleteRights(flags);
    var twice := CompleteRights(once);
    forall f ensures f in twice <==> f in once {
      if KeptByCompleteRights(f) {
      } else if f == BanSendStickers || f == BanSendGames {
        assert BanSendGifs in twice <==> BanSendGifs in once;
      }
    }
  }

  // ---------------------------------------------------------------------
  // Controller state
  // ---------------------------------------------------------------------

  datatype State = State(
    peerIdWithRevealedOptions: Option<PeerId>,
    removingPeerId: Option<PeerId>,
    searchingMembers: bool,
    modifiedRightsFlags: Option<set<BanFlag>>,
    modifiedSlowmodeTimeout: Option<Int32>)

  /** The rights the toggle starts from: the edited ones, else the default ones, else none. */
  function ToggleBase(state: State, defaultBannedRights: Option<BannedRights>): (r: set<BanFlag>)
    ensures state.modifiedRightsFlags.Some? ==> r == state.modifiedRightsFlags.value
    ensures state.modifiedRightsFlags.None? && defaultBannedRights.Some? ==> r == defaultBannedRights.value.flags
    ensures state.modifiedRightsFlags.None? && defaultBannedRights.None? ==> r == {}
  {
    match state.modifiedRightsFlags
    case Some(flags) => flags
    case None =>
      match defaultBannedRights
      case Some(rights) => rights.flags
      case None => {}
  }

  /** The listed rights, from `list`, whose dependencies include all of `rights`, added to `acc`. */
  function InsertDependents(acc: set<BanFlag>, rights: set<BanFlag>, list: seq<BanFlag>): (r: set<BanFlag>)
    ensures forall f :: f in r <==> f in acc || (f in list && rights <= GroupPermissionDependencies({f}))
    decreases |list|
  {
    if |list| == 0 then acc
    else
      var acc' := if rights <= GroupPermissionDependencies({list[0]}) then acc + {list[0]} else acc;
      InsertDependents(acc', rights, list[1..])
  }

  /**
   * The flags after a permission switch for `rights` is turned on (`value`,
   * lifting the ban together with its dependencies) or off (banning it
   * together with every listed right that depends on it).
   */
  function ToggledRights(base: set<BanFlag>, rights: set<BanFlag>, value: bool): (r: set<BanFlag>)
    ensures value ==> forall f :: f in r <==> f in base && f !in rights && f !in GroupPermissionDependencies(rights)
    ensures !value ==> forall f :: f in r <==>
      f in base || f in rights || (f in AllGroupPermissionList && rights <= GroupPermissionDependencies({f}))
  {
    if value then (base - rights) - GroupPermissionDependencies(rights)
    else InsertDependents(base + rights, rights, AllGroupPermissionList)
  }

  /** `updatePermission` applied to the state of a channel or group whose cached data is loaded. */
  function UpdatePermission(state: State, defaultBannedRights: Option<BannedRights>, rights: set<BanFlag>, value: bool): (r: State)
    ensures r.modifiedRightsFlags == Some(ToggledRights(ToggleBase(state, defaultBannedRights), rights, value))
    ensures r.(modifiedRightsFlags := state.modifiedRightsFlags) == state
  {
    state.(modifiedRightsFlags := Some(ToggledRights(ToggleBase(state, defaultBannedRights), rights, value)))
  }

  /** The switch for a single right reads, after the toggle, as it was set. */
  lemma ToggleShowsRequestedValue(base: set<BanFlag>, right: BanFlag, value: bool)
    ensures (right !in ToggledRights(base, {right}, value)) == value
  {
  }

  /** A toggle touches only the right itself and the rights tied to it by a dependency. */
  lemma ToggleIsLocal(base: set<BanFlag>, right: BanFlag, value: bool, other: BanFlag)
    requires other != right && other !in GroupPermissionDependencies({right})
    requires !(right == BanSendMessages && NeedsSendMessages(other))
    ensures other in ToggledRights(base, {right}, value) <==> other in base
  {
    if !value {
      DependenciesOfOne(other);
    }
  }

  /**
   * The switch handler: a channel or basic group whose cached data is loaded
   * gets its edited rights replaced by the toggle; otherwise nothing happens.
   */
  function UpdatePermissionForPeer(peer: PeerView, state: State, rights: set<BanFlag>, value: bool): (r: State)
    ensures peer.ChannelPeer? && peer.view.hasCachedData ==>
      r.modifiedRightsFlags == Some(ToggledRights(ToggleBase(state, peer.view.channel.defaultBannedRights), rights, value))
    ensures peer.GroupPeer? && peer.groupHasCachedData ==>
      r.modifiedRightsFlags == Some(ToggledRights(ToggleBase(state, peer.groupDefaultBannedRights), rights, value))
    ensures r.(modifiedRightsFlags := state.modifiedRightsFlags) == state
    ensures !((peer.ChannelPeer? && peer.view.hasCachedData) || (peer.GroupPeer? && peer.groupHasCachedData)) ==> r == state
  {
    match peer
    case ChannelPeer(v) => if v.hasCachedData then UpdatePermission(state, v.channel.defaultBannedRights, rights, value) else state
    case GroupPeer(defaults, hasCachedData) => if hasCachedData then UpdatePermission(state, defaults, rights, value) else state
    case OtherPeer => state
  }

  /** The default rights sent after an update: the normalised edited flags, banned until Int32.max. */
  function RequestedDefaultRights(state: State): (r: Option<BannedRights>)
    ensures r.Some? <==> state.modifiedRightsFlags.Some?
    ensures r.Some? ==> r.value.untilDate == Int32Max && r.value.flags == CompleteRights(state.modifiedRightsFlags.value)
  {
    match state.modifiedRightsFlags
    case Some(flags) => Some(BannedRights(CompleteRights(flags), Int32Max))
    case None => None
  }

  /** Flags in which a ban on sending messages brings the bans that depend on it. */
  predicate DependenciesRespected(flags: set<BanFlag>) {
    BanSendMessages in flags ==> BanSendMedia in flags && BanSendGifs in flags && BanEmbedLinks in flags && BanSendPolls in flags
  }

  /**
   * Toggling one right keeps the dependencies respected: banning messages
   * bans everything that needs them, and lifting a ban that needs messages
   * lifts the ban on messages too.
   */
  lemma ToggleKeepsDependencies(base: set<BanFlag>, right: BanFlag, value: bool)
    requires DependenciesRespected(base)
    ensures DependenciesRespected(ToggledRights(base, {right}, value))
  {
    var r := ToggledRights(base, {right}, value);
    if !value && right == BanSendMessages {
      assert {BanSendMessages} <= GroupPermissionDependencies({BanSendMedia});
      assert {BanSendMessages} <= GroupPermissionDependencies({BanSendGifs});
      assert {BanSendMessages} <= GroupPermissionDependencies({BanEmbedLinks});
      assert {BanSendMessages} <= GroupPermissionDependencies({BanSendPolls});
      assert BanSendMedia in AllGroupPermissionList && BanSendGifs in AllGroupPermissionList;
      assert BanEmbedLinks in AllGroupPermissionList && BanSendPolls in AllGroupPermissionList;
    } else if value && NeedsSendMessages(right) {
      assert BanSendMessages in GroupPermissionDependencies({right});
    }
  }

  /**
   * `setPeerIdWithRevealedOptions(peerId, fromPeerId)`: closing is honoured
   * only for the peer currently revealed, opening only when nothing was
   * revealed before; nothing else in the state changes.
   */
  function SetPeerIdWithRevealedOptions(state: State, peerId: Option<PeerId>, fromPeerId: Option<PeerId>): (r: State)
    ensures r.(peerIdWithRevealedOptions := state.peerIdWithRevealedOptions) == state
    ensures r.peerIdWithRevealedOptions == peerId || r == state
    ensures r != state ==> (peerId.None? && fromPeerId == state.peerIdWithRevealedOptions) || (peerId.Some? && fromPeerId.None?)
  {
    if (peerId.None? && fromPeerId == state.peerIdWithRevealedOptions) || (peerId.Some? && fromPeerId.None?) then
      state.(peerIdWithRevealedOptions := peerId)
    else state
  }

  /** The rule, both ways: the revealed peer becomes `peerId` exactly under its two conditions. */
  lemma RevealedOptionsRule(state: State, peerId: Option<PeerId>, fromPeerId: Option<PeerId>)
    ensures var r := SetPeerIdWithRevealedOptions(state, peerId, fromPeerId);
            r.peerIdWithRevealedOptions == peerId <==>
              || (peerId.None? && fromPeerId == state.peerIdWithRevealedOptions)
              || (peerId.Some? && fromPeerId.None?)
              || state.peerIdWithRevealedOptions == peerId
  {
  }

  // ---------------------------------------------------------------------
  // Entries
  // ---------------------------------------------------------------------

  /** The entries, keeping the data the logic decides; localised text and themes are left out. */
  datatype Entry =
    | PermissionsHeader
    | Permission(index: int, value: bool, right: BanFlag, enabled: Option<bool>)
    | SlowmodeHeader
    | Slowmode(timeout: Int32)
    | SlowmodeInfo
    | KickedItem(countText: string)
    | ExceptionsHeader
    | Add
    | PeerItem(peerIndex: int, peerId: PeerId, revealed: bool, itemEnabled: bool, defaultRights: set<BanFlag>)

  datatype StableId = IndexId(n: int) | PeerStableId(peer: PeerId)

  /** `stableId`: fixed indices around the eight permissions, peers by their id. */
  function EntryStableId(e: Entry): (r: StableId)
    ensures e.PeerItem? ==> r == PeerStableId(e.peerId)
    ensures e.Permission? ==> r == IndexId(1 + e.index)
    ensures e.PermissionsHeader? ==> r == IndexId(0)
    ensures e.SlowmodeHeader? ==> r == IndexId(998)
    ensures e.Slowmode? ==> r == IndexId(999)
    ensures e.SlowmodeInfo? ==> r == IndexId(1000)
    ensures e.KickedItem? ==> r == IndexId(1001)
    ensures e.ExceptionsHeader? ==> r == IndexId(1002)
    ensures e.Add? ==> r == IndexId(1003)
  {
    match e
    case PermissionsHeader => IndexId(0)
    case Permission(index, _, _, _) => IndexId(1 + index)
    case SlowmodeHeader => IndexId(998)
    case Slowmode(_) => IndexId(999)
    case SlowmodeInfo => IndexId(1000)
    case KickedItem(_) => IndexId(1001)
    case ExceptionsHeader => IndexId(1002)
    case Add => IndexId(1003)
    case PeerItem(_, peerId, _, _, _) => PeerStableId(peerId)
  }

  /** `<`: peer items by their index, after every other entry; the others by their stable index. */
  predicate EntryLess(lhs: Entry, rhs: Entry) {
    match lhs
    case PeerItem(index, _, _, _, _) =>
      (match rhs case PeerItem(rhsIndex, _, _, _, _) => index < rhsIndex case _ => false)
    case _ =>
      match EntryStableId(lhs)
      case IndexId(l) => (match EntryStableId(rhs) case IndexId(r) => l < r case PeerStableId(_) => true)
      case PeerStableId(_) => false
  }

  /** The position of an entry in the order `<` describes: index entries, then peers. */
  function SortKey(e: Entry): (int, int) {
    if e.PeerItem? then (1, e.peerIndex) else (0, EntryStableId(e).n)
  }

  predicate KeyLess(a: (int, int), b: (int, int)) {
    a.0 < b.0 || (a.0 == b.0 && a.1 < b.1)
  }

  /** `<` is the lexicographic order of the sort keys, hence a strict order. */
  lemma EntryLessIsKeyOrder(a: Entry, b: Entry)
    ensures EntryLess(a, b) <==> KeyLess(SortKey(a), SortKey(b))
  {
  }

  lemma EntryLessTransitive(a: Entry, b: Entry, c: Entry)
    requires EntryLess(a, b) && EntryLess(b, c)
    ensures EntryLess(a, c)
  {
    EntryLessIsKeyOrder(a, b);
    EntryLessIsKeyOrder(b, c);
    EntryLessIsKeyOrder(a, c);
  }

  lemma EntryLessIrreflexive(a: Entry)
    ensures !EntryLess(a, a)
  {
    EntryLessIsKeyOrder(a, a);
  }

  /** What the builder reads from a channel. */
  datatype ChannelView = ChannelView(
    channel: Channel,
    addressName: Option<string>,
    participants: Option<seq<PeerId>>,
    hasCachedData: bool,
    slowModeTimeout: Option<Int32>,
    kickedCount: Option<Int32>)

  /** The peer the screen shows: a channel, a basic group (with its cached data loaded or not), or anything else. */
  datatype PeerView =
    | ChannelPeer(view: ChannelView)
    | GroupPeer(groupDefaultBannedRights: Option<BannedRights>, groupHasCachedData: bool)
    | OtherPeer

  /** The effective flags: the edited ones, else the given defaults. */
  function EffectiveRights(state: State, defaults: set<BanFlag>): set<BanFlag> {
    state.modifiedRightsFlags.GetOr(defaults)
  }

  /**
   * Whether a channel's switch for `right` can be used: not for pinning or
   * group info in a public group, and not for adding members without the
   * right to invite.
   */
  function ChannelSwitchEnabled(view: ChannelView, right: BanFlag): (r: Option<bool>)
    ensures r.None? <==>
      (view.addressName.Some? && right in PublicGroupRestrictedPermissions)
      || (!HasPermission(view.channel, InviteMembers) && right == BanAddMembers)
    ensures r.Some? ==> r.value
  {
    var enabled := Some(true);
    var enabled := if view.addressName.Some? && right in PublicGroupRestrictedPermissions then None else enabled;
    if !HasPermission(view.channel, InviteMembers) && right == BanAddMembers then None else enabled
  }

  /** One switch per listed right, indexed from `start`, on when the right is not banned. */
  function PermissionEntries(rights: seq<BanFlag>, start: int, effective: set<BanFlag>, enabled: BanFlag -> Option<bool>)
    : (r: seq<Entry>)
    ensures |r| == |rights|
    ensures forall i :: 0 <= i < |rights| ==>
      r[i] == Permission(start + i, rights[i] !in effective, rights[i], enabled(rights[i]))
  {
    if |rights| == 0 then []
    else
      [Permission(start, rights[0] !in effective, rights[0], enabled(rights[0]))]
      + PermissionEntries(rights[1..], start + 1, effective, enabled)
  }

  /** One item per participant, indexed from `start`. */
  function PeerEntries(participants: seq<PeerId>, start: int, state: State, effective: set<BanFlag>): (r: seq<Entry>)
    ensures |r| == |participants|
    ensures forall i :: 0 <= i < |participants| ==>
      r[i] == PeerItem(start + i, participants[i], Some(participants[i]) == state.peerIdWithRevealedOptions,
                       state.removingPeerId != Some(participants[i]), effective)
  {
    if |participants| == 0 then []
    else
      var head := PeerItem(start, participants[0], Some(participants[0]) == state.peerIdWithRevealedOptions,
                           state.removingPeerId != Some(participants[0]), effective);
      [head] + PeerEntries(participants[1..], start + 1, state, effective)
  }

  /** The removed-users label: the count unless it is zero or unknown. */
  function KickedLabel(count: Option<Int32>): (r: string)
    ensures r == "" <==> count.None? || count.value == 0
    ensures count.Some? && count.value != 0 ==> r == Decimal(count.value) && DecimalValue(r) == count.value
  {
    match count
    case Some(n) => if n == 0 then "" else (DecimalRoundTrip(n); Decimal(n))
    case None => ""
  }

  /** A channel with everything the screen needs loaded. */
  predicate ChannelReady(v: ChannelView) {
    v.participants.Some? && v.hasCachedData && v.channel.defaultBannedRights.Some?
  }

  /** The entries of a loaded channel: switches, slow mode, removed users, exceptions and one item per participant. */
  function ChannelEntries(v: ChannelView, state: State): (r: seq<Entry>)
    requires ChannelReady(v)
    ensures |r| == 15 + |v.participants.value|
    ensures r[0] == PermissionsHeader
    ensures forall i :: 0 <= i < 8 ==>
      var right := AllGroupPermissionList[i];
      r[1 + i] == Permission(i, right !in EffectiveRights(state, v.channel.defaultBannedRights.value.flags),
                             right, ChannelSwitchEnabled(v, right))
    ensures r[9..15] == [SlowmodeHeader, Slowmode(state.modifiedSlowmodeTimeout.GetOr(v.slowModeTimeout.GetOr(0))), SlowmodeInfo,
                         KickedItem(KickedLabel(v.kickedCount)), ExceptionsHeader, Add]
    ensures forall j :: 15 <= j < |r| ==>
      var peer := v.participants.value[j - 15];
      r[j] == PeerItem(j - 15, peer, Some(peer) == state.peerIdWithRevealedOptions, state.removingPeerId != Some(peer),
                       EffectiveRights(state, v.channel.defaultBannedRights.value.flags))
  {
    var effective := EffectiveRights(state, v.channel.defaultBannedRights.value.flags);
    [PermissionsHeader]
    + PermissionEntries(AllGroupPermissionList, 0, effective, right => ChannelSwitchEnabled(v, right))
    + [SlowmodeHeader, Slowmode(state.modifiedSlowmodeTimeout.GetOr(v.slowModeTimeout.GetOr(0))), SlowmodeInfo]
    + [KickedItem(KickedLabel(v.kickedCount)), ExceptionsHeader, Add]
    + PeerEntries(v.participants.value, 0, state, effective)
  }

  /** The entries of a basic group: switches always usable, slow mode fixed at zero, no participants listed. */
  function GroupEntries(defaults: Option<BannedRights>, state: State): (r: seq<Entry>)
    ensures |r| == 14
    ensures r[0] == PermissionsHeader
    ensures forall i :: 0 <= i < 8 ==>
      var right := AllGroupPermissionList[i];
      r[1 + i] == Permission(i, right !in EffectiveRights(state, if defaults.Some? then defaults.value.flags else {}), right, Some(true))
    ensures r[9..] == [SlowmodeHeader, Slowmode(0), SlowmodeInfo, ExceptionsHeader, Add]
    ensures forall e :: e in r ==> !e.KickedItem? && !e.PeerItem?
  {
    var effective := EffectiveRights(state, if defaults.Some? then defaults.value.flags else {});
    [PermissionsHeader]
    + PermissionEntries(AllGroupPermissionList, 0, effective, right => Some(true))
    + [SlowmodeHeader, Slowmode(0), SlowmodeInfo]
    + [ExceptionsHeader, Add]
  }

  /** `channelPermissionsControllerEntries`: entries only once the peer's data is loaded. */
  function ChannelPermissionsEntries(peer: PeerView, state: State): (r: seq<Entry>)
    ensures peer.ChannelPeer? && ChannelReady(peer.view) ==> |r| == 15 + |peer.view.participants.value|
    ensures peer.GroupPeer? && peer.groupHasCachedData ==> |r| == 14
    ensures (peer.ChannelPeer? && !ChannelReady(peer.view)) || (peer.GroupPeer? && !peer.groupHasCachedData) || peer.OtherPeer?
      ==> r == []
  {
    match peer
    case ChannelPeer(v) => if ChannelReady(v) then ChannelEntries(v, state) else []
    case GroupPeer(defaults, hasCachedData) => if hasCachedData then GroupEntries(defaults, state) else []
    case OtherPeer => []
  }

  /** The eight switches of a loaded channel show each right as on exactly when it is not banned. */
  lemma ChannelSwitches(v: ChannelView, state: State, i: int)
    requires ChannelReady(v) && 0 <= i < 8
    ensures var r := ChannelPermissionsEntries(ChannelPeer(v), state);
            var right := AllGroupPermissionList[i];
            r[1 + i] == Permission(i, right !in EffectiveRights(state, v.channel.defaultBannedRights.value.flags),
                                   right, ChannelSwitchEnabled(v, right))
  {
  }

  /** Peer items of a loaded channel follow the fixed entries, indexed by position. */
  lemma ChannelPeerItems(v: ChannelView, state: State, j: int)
    requires ChannelReady(v) && 0 <= j < |v.participants.value|
    ensures var r := ChannelPermissionsEntries(ChannelPeer(v), state);
            var peer := v.participants.value[j];
            r[15 + j] == PeerItem(j, peer, Some(peer) == state.peerIdWithRevealedOptions, state.removingPeerId != Some(peer),
                                  EffectiveRights(state, v.channel.defaultBannedRights.value.flags))
  {
  }

  predicate Ordered(entries: seq<Entry>) {
    forall i :: 0 <= i < |entries| - 1 ==> EntryLess(entries[i], entries[i + 1])
  }

  /** Two ordered runs stay ordered when the last of the first comes before the first of the second. */
  lemma OrderedAppend(a: seq<Entry>, b: seq<Entry>)
    requires Ordered(a) && Ordered(b)
    requires |a| > 0 && |b| > 0 ==> EntryLess(a[|a| - 1], b[0])
    ensures Ordered(a + b)
  {
    var ab := a + b;
    forall i | 0 <= i < |ab| - 1 ensures EntryLess(ab[i], ab[i + 1]) {
      if i < |a| - 1 {
        assert ab[i] == a[i] && ab[i + 1] == a[i + 1];
      } else if i == |a| - 1 {
        assert ab[i] == a[|a| - 1] && ab[i + 1] == b[0];
      } else {
        assert ab[i] == b[i - |a|] && ab[i + 1] == b[i - |a| + 1];
      }
    }
  }

  lemma PermissionEntriesOrdered(rights: seq<BanFlag>, start: int, effective: set<BanFlag>, enabled: BanFlag -> Option<bool>)
    ensures Ordered(PermissionEntries(rights, start, effective, enabled))
  {
  }

  lemma PeerEntriesOrdered(participants: seq<PeerId>, start: int, state: State, effective: set<BanFlag>)
    ensures Ordered(PeerEntries(participants, start, state, effective))
  {
  }

  lemma ChannelEntriesOrdered(v: ChannelView, state: State)
    requires ChannelReady(v)
    ensures Ordered(ChannelEntries(v, state))
  {
    var effective := EffectiveRights(state, v.channel.defaultBannedRights.value.flags);
    var enabled := right => ChannelSwitchEnabled(v, right);
    var switches := PermissionEntries(AllGroupPermissionList, 0, effective, enabled);
    var slowmode := [SlowmodeHeader, Slowmode(state.modifiedSlowmodeTimeout.GetOr(v.slowModeTimeout.GetOr(0))), SlowmodeInfo];
    var exceptions := [KickedItem(KickedLabel(v.kickedCount)), ExceptionsHeader, Add];
    var peers := PeerEntries(v.participants.value, 0, state, effective);
    assert switches[0].index == 0 && switches[7].index == 7;
    PermissionEntriesOrdered(AllGroupPermissionList, 0, effective, enabled);
    OrderedAppend([PermissionsHeader], switches);
    var a := [PermissionsHeader] + switches;
    assert a[|a| - 1] == switches[7];
    OrderedAppend(a, slowmode);
    var b := a + slowmode;
    assert b[|b| - 1] == SlowmodeInfo;
    OrderedAppend(b, exceptions);
    var c := b + exceptions;
    assert c[|c| - 1] == Add;
    PeerEntriesOrdered(v.participants.value, 0, state, effective);
    OrderedAppend(c, peers);
    assert c + peers == ChannelEntries(v, state);
  }

  lemma GroupEntriesOrdered(defaults: Option<BannedRights>, state: State)
    ensures Ordered(GroupEntries(defaults, state))
  {
    var effective := EffectiveRights(state, if defaults.Some? then defaults.value.flags else {});
    var enabled := right => Some(true);
    var switches := PermissionEntries(AllGroupPermissionList, 0, effective, enabled);
    assert switches[0].index == 0 && switches[7].index == 7;
    PermissionEntriesOrdered(AllGroupPermissionList, 0, effective, enabled);
    OrderedAppend([PermissionsHeader], switches);
    var a := [PermissionsHeader] + switches;
    assert a[|a| - 1] == switches[7];
    OrderedAppend(a, [SlowmodeHeader, Slowmode(0), SlowmodeInfo]);
    var b := a + [SlowmodeHeader, Slowmode(0), SlowmodeInfo];
    assert b[|b| - 1] == SlowmodeInfo;
    OrderedAppend(b, [ExceptionsHeader, Add]);
    assert b + [ExceptionsHeader, Add] == GroupEntries(defaults, state);
  }

  /** The entries come out already in the order `<` describes. */
  lemma EntriesOrdered(peer: PeerView, state: State)
    ensures Ordered(ChannelPermissionsEntries(peer, state))
  {
    match peer
    case ChannelPeer(v) =>
      if ChannelReady(v) {
        ChannelEntriesOrdered(v, state);
      }
    case GroupPeer(defaults, hasCachedData) =>
      if hasCachedData {
        GroupEntriesOrdered(defaults, state);
      }
    case OtherPeer =>
  }
}
