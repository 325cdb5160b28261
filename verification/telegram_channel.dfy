/**
 * A channel peer: its Postbox encoding (participation status, channel info,
 * access hash and the other stored fields), the permission predicates
 * `hasPermission`, `hasBannedPermission` and `isRestrictedBySlowmode`, and the
 * two `withUpdated…` copies.
 *
 * Option sets whose raw values are shown (channel flags, broadcast and group
 * flags) keep their 32-bit raw value, so unknown bits survive a round trip as
 * they do in Swift, and membership of a flag is a test of its bit; the
 * admin and banned rights flags, whose raw values live elsewhere, are sets
 * of named flags.
 */
module TelegramChannel {
  import opened Wrappers

  // ---------------------------------------------------------------------
  // Integers and option sets
  // ---------------------------------------------------------------------

  function Pow2(k: nat): (r: nat)
    ensures r >= 1
  {
    if k == 0 then 1 else 2 * Pow2(k - 1)
  }

  /**
   * `OptionSet.contains` for a one-bit member: bit `k` of the 32-bit pattern
   * of `raw` is set.
   */
  predicate HasBit(raw: Int32, k: nat) {
    (raw % 0x1_0000_0000) / Pow2(k) % 2 == 1
  }

  /** TelegramChannelBroadcastFlags, by bit: messagesShouldHaveSignatures 0, hasDiscussionGroup 1. */
  const MessagesShouldHaveSignaturesBit: nat := 0
  const HasDiscussionGroupBit: nat := 1

  /** TelegramChannelGroupFlags, by bit: slowModeEnabled 0. */
  const SlowModeEnabledBit: nat := 0

  /** TelegramChannelFlags, by bit: isVerified 0, isCreator 1, isScam 2, hasGeo 3. */
  const IsVerifiedBit: nat := 0
  const IsCreatorBit: nat := 1
  const IsScamBit: nat := 2
  const HasGeoBit: nat := 3

  // ---------------------------------------------------------------------
  // Rights
  // ---------------------------------------------------------------------

  datatype AdminFlag =
    | CanChangeInfo | CanPostMessages | CanEditMessages | CanDeleteMessages
    | CanBanUsers | CanInviteUsers | CanPinMessages | CanAddAdmins

  datatype BanFlag =
    | BanReadMessages | BanSendMessages | BanSendMedia | BanSendStickers
    | BanSendGifs | BanSendGames | BanSendInline | BanEmbedLinks
    | BanSendPolls | BanChangeInfo | BanAddMembers | BanPinMessages

  datatype AdminRights = AdminRights(flags: set<AdminFlag>)

  datatype BannedRights = BannedRights(flags: set<BanFlag>, untilDate: Int32)

  // ---------------------------------------------------------------------
  // Participation status
  // ---------------------------------------------------------------------

  datatype ParticipationStatus = Member | Left | Kicked

  /** The stored raw values: member 0, left 1, kicked 2. */
  function StatusRawValue(s: ParticipationStatus): (r: Int32)
    ensures 0 <= r <= 2
    ensures s == Member ==> r == 0
    ensures s == Left ==> r == 1
    ensures s == Kicked ==> r == 2
  {
    match s
    case Member => 0
    case Left => 1
    case Kicked => 2
  }

  /** Raw values 0 and 2 are member and kicked; every other value, known or not, is left. */
  function StatusFromRawValue(raw: Int32): (r: ParticipationStatus)
    ensures r == Member <==> raw == StatusRawValue(Member)
    ensures r == Kicked <==> raw == StatusRawValue(Kicked)
    ensures r == Left <==> raw != StatusRawValue(Member) && raw != StatusRawValue(Kicked)
  {
    match raw
    case 0 => Member
    case 1 => Left
    case 2 => Kicked
    case _ => Left
  }

  lemma StatusRoundTrip(s: ParticipationStatus)
    ensures StatusFromRawValue(StatusRawValue(s)) == s
  {
  }

  // ---------------------------------------------------------------------
  // Postbox records
  // ---------------------------------------------------------------------

  /**
   * The keys a channel is stored under: "i", "ah", "aht", "t", "un", "d",
   * "v", "ps", "i.t", "i.f", "fl", "ar", "br" and "dbr".
   */
  datatype Field =
    | IdField | AccessHashField | AccessHashTypeField | TitleField | UsernameField
    | CreationDateField | VersionField | StatusField | InfoTypeField | InfoFlagsField
    | FlagsField | AdminRightsField | BannedRightsField | DefaultBannedRightsField

  /** A stored value; objects whose own coders are not shown are kept whole. */
  datatype Value =
    | PInt32(i: Int32)
    | PInt64(l: Int64)
    | PString(s: string)
    | PNil
    | PAdminRights(admin: AdminRights)
    | PBannedRights(banned: BannedRights)

  type Record = map<Field, Value>

  /** `decodeInt32ForKey(_:orElse:)`: the stored Int32, or the default when absent or of another type. */
  function DecodeInt32(r: Record, f: Field, orElse: Int32): (v: Int32)
    ensures f in r && r[f].PInt32? ==> v == r[f].i
    ensures !(f in r && r[f].PInt32?) ==> v == orElse
  {
    if f in r && r[f].PInt32? then r[f].i else orElse
  }

  function DecodeOptionalInt64(r: Record, f: Field): (v: Option<Int64>)
    ensures v.Some? <==> f in r && r[f].PInt64?
    ensures v.Some? ==> v.value == r[f].l
  {
    if f in r && r[f].PInt64? then Some(r[f].l) else None
  }

  function DecodeInt64(r: Record, f: Field, orElse: Int64): (v: Int64)
    ensures v == DecodeOptionalInt64(r, f).GetOr(orElse)
  {
    if f in r && r[f].PInt64? then r[f].l else orElse
  }

  function DecodeOptionalString(r: Record, f: Field): (v: Option<string>)
    ensures v.Some? <==> f in r && r[f].PString?
    ensures v.Some? ==> v.value == r[f].s
  {
    if f in r && r[f].PString? then Some(r[f].s) else None
  }

  function DecodeString(r: Record, f: Field, orElse: string): (v: string)
    ensures v == DecodeOptionalString(r, f).GetOr(orElse)
  {
    if f in r && r[f].PString? then r[f].s else orElse
  }

  /** `decodeObjectForKey(…) as? TelegramChatAdminRights`. */
  function DecodeAdminRights(r: Record, f: Field): (v: Option<AdminRights>)
    ensures v.Some? <==> f in r && r[f].PAdminRights?
    ensures v.Some? ==> v.value == r[f].admin
  {
    if f in r && r[f].PAdminRights? then Some(r[f].admin) else None
  }

  /** `decodeObjectForKey(…) as? TelegramChatBannedRights`. */
  function DecodeBannedRights(r: Record, f: Field): (v: Option<BannedRights>)
    ensures v.Some? <==> f in r && r[f].PBannedRights?
    ensures v.Some? ==> v.value == r[f].banned
  {
    if f in r && r[f].PBannedRights? then Some(r[f].banned) else None
  }

  // ---------------------------------------------------------------------
  // Channel info
  // ---------------------------------------------------------------------

  datatype ChannelInfo = Broadcast(broadcastFlags: Int32) | Group(groupFlags: Int32)

  /** The raw flags of either kind of info. */
  function InfoFlags(info: ChannelInfo): Int32 {
    match info
    case Broadcast(flags) => flags
    case Group(flags) => flags
  }

  /** Writes the type under "i.t" (broadcast 0, group 1) and the raw flags under "i.f". */
  function EncodeInfo(info: ChannelInfo, r: Record): (r': Record)
    ensures InfoTypeField in r' && r'[InfoTypeField].PInt32?
    ensures r'[InfoTypeField].i == 0 <==> info.Broadcast?
    ensures info.Group? ==> r'[InfoTypeField].i == 1
    ensures InfoFlagsField in r' && r'[InfoFlagsField] == PInt32(InfoFlags(info))
  {
    match info
    case Broadcast(flags) => r[InfoTypeField := PInt32(0)][InfoFlagsField := PInt32(flags)]
    case Group(flags) => r[InfoTypeField := PInt32(1)][InfoFlagsField := PInt32(flags)]
  }

  /** A missing or zero "i.t" is a broadcast, any other value a group; "i.f" defaults to no flags. */
  function DecodeInfo(r: Record): (info: ChannelInfo)
    ensures info.Group? <==> InfoTypeField in r && r[InfoTypeField].PInt32? && r[InfoTypeField].i != 0
    ensures InfoFlagsField !in r ==> info == Broadcast(0) || info == Group(0)
    ensures InfoFlagsField in r && r[InfoFlagsField].PInt32? ==> InfoFlags(info) == r[InfoFlagsField].i
    ensures !(InfoFlagsField in r && r[InfoFlagsField].PInt32?) ==> InfoFlags(info) == 0
  {
    var type_ := DecodeInt32(r, InfoTypeField, 0);
    var flags := DecodeInt32(r, InfoFlagsField, 0);
    if type_ == 0 then Broadcast(flags) else Group(flags)
  }

  /** Writing the info touches only "i.t" and "i.f". */
  lemma EncodeInfoIsLocal(info: ChannelInfo, r: Record, f: Field)
    requires f != InfoTypeField && f != InfoFlagsField
    ensures f in EncodeInfo(info, r) <==> f in r
    ensures f in r ==> EncodeInfo(info, r)[f] == r[f]
  {
  }

  lemma InfoRoundTrip(info: ChannelInfo, r: Record)
    ensures DecodeInfo(EncodeInfo(info, r)) == info
  {
  }

  // ---------------------------------------------------------------------
  // Access hash
  // ---------------------------------------------------------------------

  datatype AccessHash = Personal(personal: Int64) | GenericPublic(genericPublic: Int64)

  /** The hash value of either kind. */
  function HashValue(h: AccessHash): Int64 {
    match h
    case Personal(v) => v
    case GenericPublic(v) => v
  }

  /** The hash under "ah" with its kind under "aht" (personal 0, public 1); nil when there is none. */
  function EncodeAccessHash(h: Option<AccessHash>, r: Record): (r': Record)
    ensures AccessHashField in r'
    ensures h.None? <==> r'[AccessHashField] == PNil
    ensures h.Some? ==> AccessHashTypeField in r' && r'[AccessHashTypeField].PInt32?
    ensures h.Some? ==> r'[AccessHashField] == PInt64(HashValue(h.value))
    ensures h.Some? ==> r'[AccessHashTypeField] == PInt32(if h.value.Personal? then 0 else 1)
  {
    match h
    case Some(Personal(v)) => r[AccessHashField := PInt64(v)][AccessHashTypeField := PInt32(0)]
    case Some(GenericPublic(v)) => r[AccessHashField := PInt64(v)][AccessHashTypeField := PInt32(1)]
    case None => r[AccessHashField := PNil]
  }

  /**
   * No Int64 under "ah" is no access hash; otherwise a missing or zero "aht"
   * is a personal hash and any other kind a public one.
   */
  function DecodeAccessHash(r: Record): (h: Option<AccessHash>)
    ensures h.None? <==> DecodeOptionalInt64(r, AccessHashField).None?
    ensures h.Some? ==> (h.value.Personal? <==> DecodeInt32(r, AccessHashTypeField, 0) == 0)
    ensures h.Some? ==> HashValue(h.value) == r[AccessHashField].l
  {
    var hash := DecodeOptionalInt64(r, AccessHashField);
    var kind := DecodeInt32(r, AccessHashTypeField, 0);
    match hash
    case Some(v) => if kind == 0 then Some(Personal(v)) else Some(GenericPublic(v))
    case None => None
  }

  /** Writing the access hash touches only "ah", and "aht" when there is a hash. */
  lemma EncodeAccessHashIsLocal(h: Option<AccessHash>, r: Record, f: Field)
    requires f != AccessHashField && (h.None? || f != AccessHashTypeField)
    ensures f in EncodeAccessHash(h, r) <==> f in r
    ensures f in r ==> EncodeAccessHash(h, r)[f] == r[f]
  {
  }

  lemma AccessHashRoundTrip(h: Option<AccessHash>, r: Record)
    ensures DecodeAccessHash(EncodeAccessHash(h, r)) == h
  {
  }

  // ---------------------------------------------------------------------
  // The channel
  // ---------------------------------------------------------------------

  /** The stored fields of a channel; the photo and the restriction info are not part of this model. */
  datatype Channel = Channel(
    id: Int64,
    accessHash: Option<AccessHash>,
    title: string,
    username: Option<string>,
    creationDate: Int32,
    version: Int32,
    participationStatus: ParticipationStatus,
    info: ChannelInfo,
    flags: Int32,
    adminRights: Option<AdminRights>,
    bannedRights: Option<BannedRights>,
    defaultBannedRights: Option<BannedRights>)

  function OptionalString(v: Option<string>): Value {
    match v case Some(s) => PString(s) case None => PNil
  }

  function OptionalAdminRights(v: Option<AdminRights>): Value {
    match v case Some(a) => PAdminRights(a) case None => PNil
  }

  function OptionalBannedRights(v: Option<BannedRights>): Value {
    match v case Some(b) => PBannedRights(b) case None => PNil
  }

  /**
   * `encode(_:)`, as the keyed view of the record: the fields in the order
   * the encoder writes them, nil for the absent optional ones.
   */
  function EncodeChannel(c: Channel): Record
  {
    var withHash := EncodeAccessHash(c.accessHash, map[IdField := PInt64(c.id)]);
    var beforeInfo := withHash[TitleField := PString(c.title)][UsernameField := OptionalString(c.username)]
                        [CreationDateField := PInt32(c.creationDate)][VersionField := PInt32(c.version)]
                        [StatusField := PInt32(StatusRawValue(c.participationStatus))];
    EncodeInfo(c.info, beforeInfo)[FlagsField := PInt32(c.flags)][AdminRightsField := OptionalAdminRights(c.adminRights)]
      [BannedRightsField := OptionalBannedRights(c.bannedRights)]
      [DefaultBannedRightsField := OptionalBannedRights(c.defaultBannedRights)]
  }

  /** `init(decoder:)`: every field read with its default, so decoding never fails. */
  function DecodeChannel(r: Record): (c: Channel)
    ensures c.id == DecodeInt64(r, IdField, 0)
    ensures c.title == DecodeString(r, TitleField, "")
    ensures c.participationStatus == StatusFromRawValue(DecodeInt32(r, StatusField, 0))
    ensures c.accessHash == DecodeAccessHash(r) && c.info == DecodeInfo(r)
    ensures c.username == DecodeOptionalString(r, UsernameField)
    ensures c.creationDate == DecodeInt32(r, CreationDateField, 0) && c.version == DecodeInt32(r, VersionField, 0)
    ensures c.flags == DecodeInt32(r, FlagsField, 0)
    ensures c.adminRights == DecodeAdminRights(r, AdminRightsField)
    ensures c.bannedRights == DecodeBannedRights(r, BannedRightsField)
    ensures c.defaultBannedRights == DecodeBannedRights(r, DefaultBannedRightsField)
  {
    Channel(
      DecodeInt64(r, IdField, 0),
      DecodeAccessHash(r),
      DecodeString(r, TitleField, ""),
      DecodeOptionalString(r, UsernameField),
      DecodeInt32(r, CreationDateField, 0),
      DecodeInt32(r, VersionField, 0),
      StatusFromRawValue(DecodeInt32(r, StatusField, 0)),
      DecodeInfo(r),
      DecodeInt32(r, FlagsField, 0),
      DecodeAdminRights(r, AdminRightsField),
      DecodeBannedRights(r, BannedRightsField),
      DecodeBannedRights(r, DefaultBannedRightsField))
  }

  /** Writing the info leaves the access hash as it was read before. */
  lemma InfoKeepsAccessHash(info: ChannelInfo, r: Record)
    ensures DecodeAccessHash(EncodeInfo(info, r)) == DecodeAccessHash(r)
  {
  }

  /** Every stored field of a channel survives encoding and decoding. */
  lemma ChannelRoundTrip(c: Channel)
    ensures DecodeChannel(EncodeChannel(c)) == c
  {
    EncodedIdentity(c);
    EncodedCounters(c);
    EncodedOptionals(c);
    EncodedRights(c);
    EncodedAccessHash(c);
    EncodedInfo(c);
  }

  lemma EncodedIdentity(c: Channel)
    ensures var r := EncodeChannel(c);
      && c.id == DecodeInt64(r, IdField, 0)
      && c.title == DecodeString(r, TitleField, "")
      && c.flags == DecodeInt32(r, FlagsField, 0)
  {
  }

  lemma EncodedCounters(c: Channel)
    ensures var r := EncodeChannel(c);
      && c.creationDate == DecodeInt32(r, CreationDateField, 0)
      && c.version == DecodeInt32(r, VersionField, 0)
      && c.participationStatus == StatusFromRawValue(DecodeInt32(r, StatusField, 0))
  {
    StatusRoundTrip(c.participationStatus);
  }

  lemma EncodedOptionals(c: Channel)
    ensures var r := EncodeChannel(c);
      && c.username == DecodeOptionalString(r, UsernameField)
      && c.adminRights == DecodeAdminRights(r, AdminRightsField)
  {
  }

  lemma EncodedRights(c: Channel)
    ensures var r := EncodeChannel(c);
      && c.bannedRights == DecodeBannedRights(r, BannedRightsField)
      && c.defaultBannedRights == DecodeBannedRights(r, DefaultBannedRightsField)
  {
  }

  lemma EncodedAccessHash(c: Channel)
    ensures c.accessHash == DecodeAccessHash(EncodeChannel(c))
  {
    var withHash := EncodeAccessHash(c.accessHash, map[]);
    AccessHashRoundTrip(c.accessHash, map[]);
    InfoKeepsAccessHash(c.info, withHash);
  }

  lemma EncodedInfo(c: Channel)
    ensures c.info == DecodeInfo(EncodeChannel(c))
  {
    InfoRoundTrip(c.info, EncodeAccessHash(c.accessHash, map[]));
  }

  /** `withUpdatedAddressName`: only the username changes. */
  function WithUpdatedAddressName(c: Channel, addressName: Option<string>): (r: Channel)
    ensures r.username == addressName
    ensures r.(username := c.username) == c
  {
    c.(username := addressName)
  }

  /**
   * `withUpdatedDefaultBannedRights`: the default banned rights are replaced,
   * and the username is rebuilt from `addressName`, whose definition is not
   * part of this model and is passed in.
   */
  function WithUpdatedDefaultBannedRights(c: Channel, rights: Option<BannedRights>, addressName: Option<string>): (r: Channel)
    ensures r.defaultBannedRights == rights && r.username == addressName
    ensures r.(defaultBannedRights := c.defaultBannedRights, username := c.username) == c
  {
    c.(username := addressName, defaultBannedRights := rights)
  }

  /** When the address name is the username, updating the default rights changes only them. */
  lemma DefaultBannedRightsUpdateIsLocal(c: Channel, rights: Option<BannedRights>)
    ensures WithUpdatedDefaultBannedRights(c, rights, c.username) == c.(defaultBannedRights := rights)
    ensures WithUpdatedDefaultBannedRights(c, c.defaultBannedRights, c.username) == c
  {
  }

  // ---------------------------------------------------------------------
  // Permissions
  // ---------------------------------------------------------------------

  datatype Permission =
    | SendMessages | PinMessages | InviteMembers | EditAllMessages
    | DeleteAllMessages | BanMembers | AddAdmins | ChangeInfo

  predicate IsCreatorOf(c: Channel) {
    HasBit(c.flags, IsCreatorBit)
  }

  predicate HasAdminFlag(c: Channel, f: AdminFlag) {
    c.adminRights.Some? && f in c.adminRights.value.flags
  }

  predicate BannedBy(rights: Option<BannedRights>, f: BanFlag) {
    rights.Some? && f in rights.value.flags
  }

  /** The admin flag that grants a permission. */
  function GrantingAdminFlag(p: Permission): AdminFlag {
    match p
    case SendMessages => CanPostMessages
    case PinMessages => CanPinMessages
    case InviteMembers => CanInviteUsers
    case EditAllMessages => CanEditMessages
    case DeleteAllMessages => CanDeleteMessages
    case BanMembers => CanBanUsers
    case AddAdmins => CanAddAdmins
    case ChangeInfo => CanChangeInfo
  }

  /** The ban flag that can deny a permission to a group member; admin-only permissions have none. */
  function DenyingBanFlag(p: Permission): Option<BanFlag> {
    match p
    case SendMessages => Some(BanSendMessages)
    case PinMessages => Some(BanPinMessages)
    case InviteMembers => Some(BanAddMembers)
    case ChangeInfo => Some(BanChangeInfo)
    case _ => None
  }

  /** A member of a group may do what a personal or default ban does not forbid. */
  predicate NotBanned(c: Channel, f: BanFlag) {
    !BannedBy(c.bannedRights, f) && !BannedBy(c.defaultBannedRights, f)
  }

  /**
   * `hasPermission`.  The contract states the rule uniformly: the creator may
   * do everything; an admin flag grants its permission (pinning in a
   * broadcast also via editing); admin-only permissions need the flag; and in
   * a group the remaining ones are granted unless a ban denies them.
   */
  function HasPermission(c: Channel, p: Permission): (r: bool)
    ensures IsCreatorOf(c) ==> r
    ensures !IsCreatorOf(c) && DenyingBanFlag(p).None? ==> (r <==> HasAdminFlag(c, GrantingAdminFlag(p)))
    ensures !IsCreatorOf(c) && DenyingBanFlag(p).Some? && c.info.Broadcast? ==>
      (r <==> HasAdminFlag(c, GrantingAdminFlag(p)) || (p == PinMessages && HasAdminFlag(c, CanEditMessages)))
    ensures !IsCreatorOf(c) && DenyingBanFlag(p).Some? && c.info.Group? ==>
      (r <==> HasAdminFlag(c, GrantingAdminFlag(p)) || NotBanned(c, DenyingBanFlag(p).value))
  {
    if IsCreatorOf(c) then true
    else match p
      case SendMessages =>
        if c.info.Broadcast? then
          if c.adminRights.Some? then CanPostMessages in c.adminRights.value.flags else false
        else if c.adminRights.Some? && CanPostMessages in c.adminRights.value.flags then true
        else if c.bannedRights.Some? && BanSendMessages in c.bannedRights.value.flags then false
        else if c.defaultBannedRights.Some? && BanSendMessages in c.defaultBannedRights.value.flags then false
        else true
      case PinMessages =>
        if c.info.Broadcast? then
          if c.adminRights.Some? then
            CanPinMessages in c.adminRights.value.flags || CanEditMessages in c.adminRights.value.flags
          else false
        else if c.adminRights.Some? && CanPinMessages in c.adminRights.value.flags then true
        else if c.bannedRights.Some? && BanPinMessages in c.bannedRights.value.flags then false
        else if c.defaultBannedRights.Some? && BanPinMessages in c.defaultBannedRights.value.flags then false
        else true
      case InviteMembers =>
        if c.info.Broadcast? then
          if c.adminRights.Some? then CanInviteUsers in c.adminRights.value.flags else false
        else if c.adminRights.Some? && CanInviteUsers in c.adminRights.value.flags then true
        else if c.bannedRights.Some? && BanAddMembers in c.bannedRights.value.flags then false
        else if c.defaultBannedRights.Some? && BanAddMembers in c.defaultBannedRights.value.flags then false
        else true
      case EditAllMessages =>
        c.adminRights.Some? && CanEditMessages in c.adminRights.value.flags
      case DeleteAllMessages =>
        c.adminRights.Some? && CanDeleteMessages in c.adminRights.value.flags
      case BanMembers =>
        c.adminRights.Some? && CanBanUsers in c.adminRights.value.flags
      case ChangeInfo =>
        if c.info.Broadcast? then
          if c.adminRights.Some? then CanChangeInfo in c.adminRights.value.flags else false
        else if c.adminRights.Some? && CanChangeInfo in c.adminRights.value.flags then true
        else if c.bannedRights.Some? && BanChangeInfo in c.bannedRights.value.flags then false
        else if c.defaultBannedRights.Some? && BanChangeInfo in c.defaultBannedRights.value.flags then false
        else true
      case AddAdmins =>
        c.adminRights.Some? && CanAddAdmins in c.adminRights.value.flags
  }

  /** A channel with admin rights holding at least one flag. */
  predicate IsAdmin(c: Channel) {
    c.adminRights.Some? && c.adminRights.value.flags != {}
  }

  /**
   * `hasBannedPermission`: nothing for the creator or any admin; otherwise a
   * default ban covering all of `rights` reports (Int32.max, false), and
   * failing that a personal ban covering them reports its end date and true.
   */
  function HasBannedPermission(c: Channel, rights: set<BanFlag>): (r: Option<(Int32, bool)>)
    ensures IsCreatorOf(c) || IsAdmin(c) ==> r.None?
    ensures r.Some? && !r.value.1 <==> !IsCreatorOf(c) && !IsAdmin(c) && c.defaultBannedRights.Some? && rights <= c.defaultBannedRights.value.flags
    ensures r.Some? && !r.value.1 ==> r.value.0 == Int32Max
    ensures r.Some? && r.value.1 <==>
      && !IsCreatorOf(c) && !IsAdmin(c)
      && !(c.defaultBannedRights.Some? && rights <= c.defaultBannedRights.value.flags)
      && c.bannedRights.Some? && rights <= c.bannedRights.value.flags
    ensures r.Some? && r.value.1 ==> r.value.0 == c.bannedRights.value.untilDate
  {
    if IsCreatorOf(c) then None
    else if c.adminRights.Some? && c.adminRights.value.flags != {} then None
    else if c.defaultBannedRights.Some? && rights <= c.defaultBannedRights.value.flags then Some((Int32Max, false))
    else if c.bannedRights.Some? && rights <= c.bannedRights.value.flags then Some((c.bannedRights.value.untilDate, true))
    else None
  }

  /** `isRestrictedBySlowmode`: a group with slow mode on, for a member who is neither creator nor admin. */
  function IsRestrictedBySlowmode(c: Channel): (r: bool)
    ensures r <==> c.info.Group? && HasBit(c.info.groupFlags, SlowModeEnabledBit) && !IsCreatorOf(c) && !IsAdmin(c)
  {
    if IsCreatorOf(c) then false
    else if c.adminRights.Some? && c.adminRights.value.flags != {} then false
    else match c.info
      case Group(flags) => HasBit(flags, SlowModeEnabledBit)
      case Broadcast(_) => false
  }

  /**
   * A ban reported for a single group right takes the matching permission
   * away: the member is neither creator nor admin, so nothing overrides it.
   */
  lemma BannedPermissionDenies(c: Channel, p: Permission)
    requires c.info.Group? && DenyingBanFlag(p).Some?
    requires HasBannedPermission(c, {DenyingBanFlag(p).value}).Some?
    ensures !HasPermission(c, p)
  {
    var f := DenyingBanFlag(p).value;
    assert !IsCreatorOf(c) && !IsAdmin(c);
    assert !HasAdminFlag(c, GrantingAdminFlag(p));
    assert BannedBy(c.defaultBannedRights, f) || BannedBy(c.bannedRights, f);
  }

  /** A member held back by slow mode has none of the admin-only permissions. */
  lemma SlowmodeMemberIsNoAdmin(c: Channel, p: Permission)
    requires IsRestrictedBySlowmode(c) && DenyingBanFlag(p).None?
    ensures !HasPermission(c, p)
  {
    assert !HasAdminFlag(c, GrantingAdminFlag(p));
  }

  /** The username plays no part in any permission. */
  lemma PermissionsIgnoreAddressName(c: Channel, addressName: Option<string>, p: Permission, rights: set<BanFlag>)
    ensures HasPermission(WithUpdatedAddressName(c, addressName), p) == HasPermission(c, p)
    ensures HasBannedPermission(WithUpdatedAddressName(c, addressName), rights) == HasBannedPermission(c, rights)
    ensures IsRestrictedBySlowmode(WithUpdatedAddressName(c, addressName)) == IsRestrictedBySlowmode(c)
  {
  }
}
