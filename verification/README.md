# Telegram-iOS list, permission and codec logic in Dafny

This project models the pure, sequential logic that sits inside several
Telegram-iOS controllers and models. The reactive signal wiring, the UI and
storage around that logic are not modelled. Each Swift source file has its
own module:

- `LinearPartition` (MultiplexedVideoNode.swift): the dynamic program that
  splits the weights of a row of GIFs into k contiguous rows, minimising
  the largest row sum. It is written as imperative methods over flat tables
  and compared with a functional reference (`Table`, `Best`).
- `ChannelPermissions` (ChannelPermissionsController.swift): ban-flag
  dependencies and normalisation, the permission toggle, the revealed-options
  rule, and the list entries with their identity and order.
- `TelegramChannel` (TelegramChannel.swift): the participation-status, info
  and access-hash encodings, the stored-record round trip, the `withUpdated*`
  copies, and the permission predicates `hasPermission`,
  `hasBannedPermission` and `isRestrictedBySlowmode`.
- `ProxySettings` (ProxyListSettingsController.swift): activating, removing
  and drag-reordering servers, the revealed-options rule, change-detecting
  state updates, the list entries and their comparator, and the share text.
- `StickerSearch` (StickerPaneSearchContentNode.swift): query routing, the
  entries built from found stickers and packs, their identity and order, and
  which panes are visible.
- `DiscussionGroupSearch` (ChannelDiscussionGroupSearchContainerNode.swift):
  the token index, the prefix search with de-duplication by peer id, and the
  indexed entries.
- `HashtagPanel` (HashtagChatInputContextPanelNode.swift): de-duplicated
  suggestion entries and the text edit made when a hashtag is picked.
- `AutoremoveTimeout` (AutoremoveTimeoutMessageAttribute.swift): the
  self-destruct attribute's coding, `containsSecretMedia` and
  `secretMediaDuration`.
- `ThemeCodable` (PresentationThemeCodable.swift): colour and enumeration
  string codecs, the wallpaper and theme-name codecs, keyed colour sections,
  the action-sheet section and the theme root.
- `VoiceCallDataSaving` (VoiceCallDataSavingController.swift): the four list
  entries, the option titles and the selection update.
- `NotificationLocation` (NotificationContentContext.swift):
  `parseFileLocationResource`.

Two modules are shared. `Wrappers` holds `Option`, `Result` and the
fixed-width integer types. `Text` holds ASCII lower-casing, prefixes,
joining, and hexadecimal and decimal formatting with their inverses.

Swift's `Int32`/`Int64` values are modelled as bounded subsets of `int`.
Where the source formats a value's bit pattern, the wrap-around is written
out. Functions the source calls but whose code is not part of this model are
parameters. These are `UIColor(hexString:)`, percent-encoding, MTProto secret
serialisation, index tokenisation, `dataWithHexString`, the emoji test and
the query-range finder.

## Model

| member | source | states |
|---|---|---|
| LinearPartition.LinearPartitionForWeights | submodules/TelegramUI/TelegramUI/MultiplexedVideoNode.swift:536-596 | Gives no rows for k ≤ 0, and one singleton row per weight, in order, when k ≥ n. Otherwise it gives exactly k rows with a non-empty first row. For k > 0 the rows concatenate to the weights. For non-negative weights the largest row sum is the table's last cell, and no split into k contiguous rows has a smaller largest sum. |
| LinearPartition.LinearPartitionTable | submodules/TelegramUI/TelegramUI/MultiplexedVideoNode.swift:493-534 | The split table holds, for every cell (i, j), the first split point of minimal cost of the reference recurrence. |
| LinearPartition.PrefixColumn | submodules/TelegramUI/TelegramUI/MultiplexedVideoNode.swift:503-506 | Column 0 of the cost table holds the prefix sums of the weights. |
| LinearPartition.FirstRow | submodules/TelegramUI/TelegramUI/MultiplexedVideoNode.swift:508-510 | Row 0 of the cost table holds the first weight in every column. |
| LinearPartition.FillRow | submodules/TelegramUI/TelegramUI/MultiplexedVideoNode.swift:512-531 | One pass of the outer loop fills row i of both tables with the reference costs and split points. |
| LinearPartition.ScanSplitPoints | submodules/TelegramUI/TelegramUI/MultiplexedVideoNode.swift:517-526 | The inner scan returns the minimal cost over all split points 0 ≤ x < i and the first x reaching it. |
| LinearPartition.Best | submodules/TelegramUI/TelegramUI/MultiplexedVideoNode.swift:517-526 | The chosen split is below i, no split costs less, and no earlier split costs as little. |
| LinearPartition.SplitAt | submodules/TelegramUI/TelegramUI/MultiplexedVideoNode.swift:485-491 | A lookup in the split table gives the best split point of the cell, and it lies in 0 ≤ x < i. |
| LinearPartition.Singletons | submodules/TelegramUI/TelegramUI/MultiplexedVideoNode.swift:544-550 | One row per weight, in input order, concatenating back to the weights. |
| LinearPartition.Reconstruct | submodules/TelegramUI/TelegramUI/MultiplexedVideoNode.swift:556-595 | The rebuilt rows are exactly k with a non-empty first row, and concatenate to the weights. For non-negative weights their largest sum is the table's last cell. |
| LinearPartition.LaterRows | submodules/TelegramUI/TelegramUI/MultiplexedVideoNode.swift:559-583 | The reconstruction loop yields k−1 rows that concatenate to the weights after the last split point. It inserts an empty row once that point reaches 0. |
| LinearPartition.TableIsOptimal | submodules/TelegramUI/TelegramUI/MultiplexedVideoNode.swift:512-531 | For non-negative weights, rows whose largest sum equals the table's last cell are optimal among all splits into k contiguous rows. |
| LinearPartition.LowerBound | submodules/TelegramUI/TelegramUI/MultiplexedVideoNode.swift:512-531 | Every split of the first i+1 non-negative weights into j+1 contiguous rows has a largest row sum of at least table cell (i, j). |
| LinearPartition.TableMonotoneInRows | submodules/TelegramUI/TelegramUI/MultiplexedVideoNode.swift:512-531 | For non-negative weights, allowing one more row never raises the optimal cost. |
| LinearPartition.TableMonotoneInWeights | submodules/TelegramUI/TelegramUI/MultiplexedVideoNode.swift:512-531 | For non-negative weights, adding a weight never lowers the optimal cost. |
| ChannelPermissions.GroupPermissionDependencies | submodules/TelegramUI/TelegramUI/ChannelPermissionsController.swift:340-358 | The dependencies are {banSendMessages} exactly when the right holds media, gifs, links or polls, and empty otherwise. |
| ChannelPermissions.DependenciesOfOne | submodules/TelegramUI/TelegramUI/ChannelPermissionsController.swift:340-358 | A single right depends on banSendMessages exactly when it needs messages. |
| ChannelPermissions.CompleteRights | submodules/TelegramUI/TelegramUI/ChannelPermissionsController.swift:360-378 | banReadMessages is never kept. Stickers, gifs and games are banned together exactly when gifs were. Inline bots are banned exactly when links are. Every other flag is kept. |
| ChannelPermissions.CompleteRightsIdempotent | submodules/TelegramUI/TelegramUI/ChannelPermissionsController.swift:360-378 | Normalising twice equals normalising once. |
| ChannelPermissions.ToggleBase | submodules/TelegramUI/TelegramUI/ChannelPermissionsController.swift:516-523 | The toggle starts from the edited flags, else the default banned flags, else none. |
| ChannelPermissions.ToggledRights | submodules/TelegramUI/TelegramUI/ChannelPermissionsController.swift:524-534 | Allowing removes the right and its dependencies and nothing else. Banning adds the right and every listed right depending on it, and nothing else. |
| ChannelPermissions.InsertDependents | submodules/TelegramUI/TelegramUI/ChannelPermissionsController.swift:529-533 | The loop over the listed rights adds exactly those whose dependencies contain the toggled right, keeping what was there. |
| ChannelPermissions.UpdatePermission | submodules/TelegramUI/TelegramUI/ChannelPermissionsController.swift:514-537 | The edited flags become the toggled base; nothing else in the state changes. |
| ChannelPermissions.UpdatePermissionForPeer | submodules/TelegramUI/TelegramUI/ChannelPermissionsController.swift:509-573 | A channel or basic group with cached data gets the toggle against its own default rights. Any other peer leaves the state unchanged. |
| ChannelPermissions.RequestedDefaultRights | submodules/TelegramUI/TelegramUI/ChannelPermissionsController.swift:538-542 | Rights are sent only when there are edited flags. They are then the normalised flags, banned until Int32.max. |
| ChannelPermissions.ToggleShowsRequestedValue | submodules/TelegramUI/TelegramUI/ChannelPermissionsController.swift:524-534 | After a toggle, a right's switch reads as it was set. |
| ChannelPermissions.ToggleIsLocal | submodules/TelegramUI/TelegramUI/ChannelPermissionsController.swift:524-534 | A toggle leaves alone every flag not tied to the toggled right by a dependency. |
| ChannelPermissions.ToggleKeepsDependencies | submodules/TelegramUI/TelegramUI/ChannelPermissionsController.swift:524-534 | If a ban on messages came with the bans that need messages before a toggle, it still does after. |
| ChannelPermissions.SetPeerIdWithRevealedOptions | submodules/TelegramUI/TelegramUI/ChannelPermissionsController.swift:575-582 | The revealed peer changes only when closing the currently revealed peer or opening with nothing revealed before. Nothing else changes. |
| ChannelPermissions.RevealedOptionsRule | submodules/TelegramUI/TelegramUI/ChannelPermissionsController.swift:578-580 | Both directions of the revealed-peer rule. |
| ChannelPermissions.EntryStableId | submodules/TelegramUI/TelegramUI/ChannelPermissionsController.swift:73-94 | Peer items are identified by their peer id. The header is index 0 and permission i is 1+i. The slow-mode header, slow-mode value and slow-mode note are 998, 999 and 1000. The removed-users link is 1001, the exceptions header 1002 and the add button 1003. |
| ChannelPermissions.EntryLessIsKeyOrder | submodules/TelegramUI/TelegramUI/ChannelPermissionsController.swift:185-206 | The comparator `EntryLess` is the lexicographic order of (is peer item, index): fixed entries by stable index, all before peer items, and peer items by index. |
| ChannelPermissions.EntryLessTransitive | submodules/TelegramUI/TelegramUI/ChannelPermissionsController.swift:185-206 | The comparator is transitive. |
| ChannelPermissions.EntryLessIrreflexive | submodules/TelegramUI/TelegramUI/ChannelPermissionsController.swift:185-206 | No entry is less than itself. |
| ChannelPermissions.ChannelSwitchEnabled | submodules/TelegramUI/TelegramUI/ChannelPermissionsController.swift:394-402 | A switch is unusable exactly for pinning or group info in a public group, and for adding members without the invite permission. Otherwise it is enabled. |
| ChannelPermissions.PermissionEntries | submodules/TelegramUI/TelegramUI/ChannelPermissionsController.swift:392-405 | One switch per listed right with consecutive indices, on exactly when the right is not in the effective flags. |
| ChannelPermissions.PeerEntries | submodules/TelegramUI/TelegramUI/ChannelPermissionsController.swift:415-419 | One item per participant with consecutive indices, revealed and enabled by the state's revealed and removing peers. |
| ChannelPermissions.KickedLabel | submodules/TelegramUI/TelegramUI/ChannelPermissionsController.swift:411 | The removed-users label is empty exactly when the count is zero or unknown. Otherwise it is the decimal text of the count. |
| ChannelPermissions.ChannelPermissionsEntries | submodules/TelegramUI/TelegramUI/ChannelPermissionsController.swift:380-446 | A loaded channel gives 15 entries plus one per participant, and a basic group with cached data gives 14. Any other peer gives none. |
| ChannelPermissions.ChannelEntries | submodules/TelegramUI/TelegramUI/ChannelPermissionsController.swift:383-419 | A loaded channel gives 15 entries plus one per participant. First comes the header. Then come the eight permission switches in list order, each on exactly when its right is not in the effective flags (`EffectiveRights`: the edited flags, else the default ones), with its enabled state. Next come the slow-mode header, the slow-mode value and its note. The value is the edited timeout, else the channel's, else 0. Then come the removed-users link with its count label, the exceptions header and the add button. Last come the participants' peer items, each revealed and enabled by the state's revealed and removing peers. |
| ChannelPermissions.GroupEntries | submodules/TelegramUI/TelegramUI/ChannelPermissionsController.swift:420-443 | A basic group gives 14 entries. First come the header and the eight switches, always usable and on exactly when the right is not in the effective flags. Then come the slow-mode header, a slow-mode value fixed at 0, its note, the exceptions header and the add button. There is no removed-users link and no peer item. |
| ChannelPermissions.ChannelSwitches | submodules/TelegramUI/TelegramUI/ChannelPermissionsController.swift:392-405 | In a loaded channel, entry 1+i is permission i, on exactly when the right is not banned, with its enabled state. |
| ChannelPermissions.ChannelPeerItems | submodules/TelegramUI/TelegramUI/ChannelPermissionsController.swift:415-419 | Participant j is entry 15+j with index j. It is revealed exactly when it is the state's revealed peer, enabled exactly when it is not being removed, and shows the effective flags. |
| ChannelPermissions.EntriesOrdered | submodules/TelegramUI/TelegramUI/ChannelPermissionsController.swift:380-446 | The built entries are already in the comparator's order. |
| ChannelPermissions.ChannelEntriesOrdered | submodules/TelegramUI/TelegramUI/ChannelPermissionsController.swift:383-419 | A channel's entries are already in the comparator's order. |
| ChannelPermissions.GroupEntriesOrdered | submodules/TelegramUI/TelegramUI/ChannelPermissionsController.swift:420-443 | A group's entries are already in the comparator's order. |
| TelegramChannel.StatusFromRawValue | submodules/TelegramCore/TelegramCore/TelegramChannel.swift:13-35 | Raw 0 is member and 2 is kicked. Every other value, including unknown ones, is left. |
| TelegramChannel.StatusRoundTrip | submodules/TelegramCore/TelegramCore/TelegramChannel.swift:13-35 | Decoding a status's raw value gives the status back. |
| TelegramChannel.StatusRawValue | submodules/TelegramCore/TelegramCore/TelegramChannel.swift:13-22 | Member is written as 0, left as 1 and kicked as 2. |
| TelegramChannel.EncodeInfo | submodules/TelegramCore/TelegramCore/TelegramChannel.swift:113-122 | The type is written under "i.t": 0 for broadcast and 1 for group. The info's own flags are written under "i.f". |
| TelegramChannel.DecodeInfo | submodules/TelegramCore/TelegramCore/TelegramChannel.swift:124-131 | A group exactly when "i.t" holds a non-zero Int32, else a broadcast. The flags are the Int32 under "i.f", or none when it is missing. |
| TelegramChannel.InfoRoundTrip | submodules/TelegramCore/TelegramCore/TelegramChannel.swift:113-131 | Decoding the written info gives it back, whatever else the record holds. |
| TelegramChannel.EncodeInfoIsLocal | submodules/TelegramCore/TelegramCore/TelegramChannel.swift:113-122 | Writing the info touches only "i.t" and "i.f"; every other key keeps its presence and value. |
| TelegramChannel.EncodeAccessHash | submodules/TelegramCore/TelegramCore/TelegramChannel.swift:220-231 | No hash is written as nil under "ah". A hash writes its value under "ah", and under "aht" 0 for personal and 1 for public. |
| TelegramChannel.DecodeAccessHash | submodules/TelegramCore/TelegramCore/TelegramChannel.swift:193-203 | No Int64 under "ah" means no hash. Otherwise the hash has that value; a missing or zero kind is personal, and any other kind is public. |
| TelegramChannel.AccessHashRoundTrip | submodules/TelegramCore/TelegramCore/TelegramChannel.swift:193-231 | Personal, public and absent hashes all survive a round trip. |
| TelegramChannel.EncodeAccessHashIsLocal | submodules/TelegramCore/TelegramCore/TelegramChannel.swift:220-231 | Writing the access hash touches only "ah", and "aht" when there is a hash; every other key keeps its presence and value. |
| TelegramChannel.DecodeChannel | submodules/TelegramCore/TelegramCore/TelegramChannel.swift:191-216 | Decoding never fails. Id, title, creation date, version and flags are read under their keys with 0 or "" as default. Username, admin rights and both banned rights are present exactly when stored with their type. Status, access hash and info come from their own decoders. |
| TelegramChannel.ChannelRoundTrip | submodules/TelegramCore/TelegramCore/TelegramChannel.swift:191-263 | Every modelled field of a channel survives encoding (`EncodeChannel`, which writes the fields in the encoder's order) and decoding. |
| TelegramChannel.InfoKeepsAccessHash | submodules/TelegramCore/TelegramCore/TelegramChannel.swift:218-263 | Writing the info does not disturb the access hash written before it. |
| TelegramChannel.WithUpdatedAddressName | submodules/TelegramCore/TelegramCore/TelegramChannel.swift:298-300 | Only the username changes. |
| TelegramChannel.WithUpdatedDefaultBannedRights | submodules/TelegramCore/TelegramCore/TelegramChannel.swift:302-304 | Only the default banned rights and the username, rebuilt from the address name, change. |
| TelegramChannel.DefaultBannedRightsUpdateIsLocal | submodules/TelegramCore/TelegramCore/TelegramChannel.swift:302-304 | With the username as address name, only the default rights change. Writing the same rights back changes nothing. |
| TelegramChannel.HasPermission | submodules/TelegramCore/TelegramCore/TelegramChannel.swift:319-421 | The creator may do everything, and admin-only permissions need their admin flag. In a broadcast the rest need the admin flag, and pinning is also allowed by the edit flag. In a group the rest are granted by the admin flag or by the absence of a personal or default ban. |
| TelegramChannel.HasBannedPermission | submodules/TelegramCore/TelegramCore/TelegramChannel.swift:423-437 | Nothing for a creator or admin. Otherwise a covering default ban gives (Int32.max, false); failing that, a covering personal ban gives (its end date, true). |
| TelegramChannel.IsRestrictedBySlowmode | submodules/TelegramCore/TelegramCore/TelegramChannel.swift:439-451 | True exactly for a group with slow mode on, when the user is neither creator nor admin. |
| TelegramChannel.BannedPermissionDenies | submodules/TelegramCore/TelegramCore/TelegramChannel.swift:330-342 | A reported ban on a group right takes the matching permission away. |
| TelegramChannel.SlowmodeMemberIsNoAdmin | submodules/TelegramCore/TelegramCore/TelegramChannel.swift:381-395 | A member held back by slow mode has none of the admin-only permissions. |
| TelegramChannel.PermissionsIgnoreAddressName | submodules/TelegramCore/TelegramCore/TelegramChannel.swift:298-300 | Changing the username changes none of the three permission predicates. |
| ProxySettings.ActivateServer | submodules/TelegramUI/TelegramUI/ProxyListSettingsController.swift:336-346 | A listed server that is not already active becomes active and turns proxying on. Any other input changes nothing. |
| ProxySettings.ActivatedServerIsActive | submodules/TelegramUI/TelegramUI/ProxyListSettingsController.swift:336-346 | After activation the server is active exactly when it is listed or was already active; the list is unchanged. |
| ProxySettings.RemoveServer | submodules/TelegramUI/TelegramUI/ProxyListSettingsController.swift:349-360 | The first copy of a listed server is deleted, and proxying stops if it was active. An unlisted server changes nothing. |
| ProxySettings.RemoveServerKeepsOthers | submodules/TelegramUI/TelegramUI/ProxyListSettingsController.swift:349-360 | The other servers keep their order, and exactly one copy of the removed server goes. |
| ProxySettings.WithEnabled | submodules/TelegramUI/TelegramUI/ProxyListSettingsController.swift:328-333 | Only the enabled flag changes. |
| ProxySettings.WithUseForCalls | submodules/TelegramUI/TelegramUI/ProxyListSettingsController.swift:369-374 | Only the use-for-calls flag changes. |
| ProxySettings.SetServerWithRevealedOptions | submodules/TelegramUI/TelegramUI/ProxyListSettingsController.swift:361-368 | The revealed server changes only when closing the currently revealed server or opening with nothing revealed. Editing is untouched. |
| ProxySettings.RevealedServerRule | submodules/TelegramUI/TelegramUI/ProxyListSettingsController.swift:361-368 | Both directions of the revealed-server rule. |
| ProxySettings.UpdateState | submodules/TelegramUI/TelegramUI/ProxyListSettingsController.swift:312-324 | The new state is published exactly when it differs from the current one. |
| ProxySettings.RepeatedUpdateIsSilent | submodules/TelegramUI/TelegramUI/ProxyListSettingsController.swift:312-324 | Repeating an idempotent update publishes nothing. |
| ProxySettings.ServerStatus | submodules/TelegramUI/TelegramUI/ProxyListSettingsController.swift:240-276 | For the server in use while proxying is enabled: activity exactly when not online. The text is waiting-for-network, connecting (while connecting or updating), or connected, with a ping exactly when the server is available; it is active only when online. For any other server: no activity, and the connection kind's text with its availability, checking when unknown. |
| ProxySettings.ProxyEntries | submodules/TelegramUI/TelegramUI/ProxyListSettingsController.swift:232-290 | Three head entries, one per server, one share entry when there is a server, and two call entries when the active server is SOCKS5. |
| ProxySettings.EntriesHeadAndServers | submodules/TelegramUI/TelegramUI/ProxyListSettingsController.swift:232-279 | The switch, header and add button come first. Then comes each server in list order (`ServerEntries`), with index i, its active mark, its display status, the editing flag, its revealed mark and the enabled flag. |
| ProxySettings.ServerEntries | submodules/TelegramUI/TelegramUI/ProxyListSettingsController.swift:238-279 | One server item per server, in list order, with index start+i, its active mark, display status, the editing flag, its revealed mark and the enabled flag. |
| ProxySettings.EntriesShareAndCalls | submodules/TelegramUI/TelegramUI/ProxyListSettingsController.swift:280-287 | The share button appears exactly when there is a server, and the calls switch exactly when the active server is SOCKS5, showing the setting. |
| ProxySettings.EntryLessAsWrittenNotStrict | submodules/TelegramUI/TelegramUI/ProxyListSettingsController.swift:141-190 | The comparator as written (`EntryLessAsWritten`) says the share button is less than itself, and neither it nor the calls switch is less than the other. |
| ProxySettings.AsWrittenMisordersEntries | submodules/TelegramUI/TelegramUI/ProxyListSettingsController.swift:141-190 | With a server and an active SOCKS5 server, two adjacent built entries are out of order under the comparator as written. |
| ProxySettings.ComparatorsAgreeElsewhere | submodules/TelegramUI/TelegramUI/ProxyListSettingsController.swift:141-190 | The corrected comparator agrees with the written one on every pair except the share button against itself or the calls switch. |
| ProxySettings.EntryLessIsStrict | submodules/TelegramUI/TelegramUI/ProxyListSettingsController.swift:141-190 | The corrected comparator `EntryLess` is irreflexive and transitive. |
| ProxySettings.EntriesOrdered | submodules/TelegramUI/TelegramUI/ProxyListSettingsController.swift:232-290 | The built entries are in the corrected comparator's order. |
| ProxySettings.ReorderTarget | submodules/TelegramUI/TelegramUI/ProxyListSettingsController.swift:442-458 | The target is the server at the drop index exactly when that entry is a server. It is the start exactly when the entry there sorts before the servers. It is the end exactly when the index is past the list or the entry sorts after the servers. |
| ProxySettings.InsertNear | submodules/TelegramUI/TelegramUI/ProxyListSettingsController.swift:465-485 | The insertion loop places the server next to the first copy of the reference, or at the end when there is none. |
| ProxySettings.Reorder | submodules/TelegramUI/TelegramUI/ProxyListSettingsController.swift:437-488 | Dragging a non-server changes nothing. A dragged server is removed and placed at its target, and nothing else in the settings changes. |
| ProxySettings.ReorderKeepsOthers | submodules/TelegramUI/TelegramUI/ProxyListSettingsController.swift:462-485 | The other servers keep their relative order. The list gains the dragged server once, after losing its first copy, if it had one. |
| ProxySettings.ReorderIsPermutation | submodules/TelegramUI/TelegramUI/ProxyListSettingsController.swift:462-485 | Dragging a listed server leaves the same servers with the same multiplicities. |
| ProxySettings.ReorderNextToReference | submodules/TelegramUI/TelegramUI/ProxyListSettingsController.swift:465-485 | Moving down lands right after the reference, and moving up right before it. |
| ProxySettings.ServerLink | submodules/TelegramUI/TelegramUI/ProxyListSettingsController.swift:500-512 | MTProto servers give a t.me/proxy link with server, port and the encoded secret. SOCKS5 servers give a t.me/socks link with server and port. User and pass are appended, percent-encoded, exactly when both are present. |
| ProxySettings.LinksAt | submodules/TelegramUI/TelegramUI/ProxyListSettingsController.swift:497-517 | The i-th entry of `Links` is the i-th server's link, and there is one link per server. |
| ProxySettings.ShareText | submodules/TelegramUI/TelegramUI/ProxyListSettingsController.swift:497-517 | The shared text is empty exactly when there are no servers. |
| ProxySettings.ShareTextIsJoin | submodules/TelegramUI/TelegramUI/ProxyListSettingsController.swift:497-517 | The shared text is the links joined by a blank line. |
| StickerSearch.RouteQuery | submodules/TelegramUI/TelegramUI/StickerPaneSearchContentNode.swift:263-300 | Empty text searches nothing. Otherwise a single emoji after trimming is looked up directly. Failing that, a trimmed query of more than one character, counted as grapheme clusters by the `characterCount` parameter, with a language other than empty or "emoji" searches keywords. Those keywords are lower-cased, matched completely below three characters, and searched in English too for non-English languages. Every other text searches only packs. Each route holds exactly under its condition. |
| StickerSearch.Trim | submodules/TelegramUI/TelegramUI/StickerPaneSearchContentNode.swift:270 | The trimmed text neither starts nor ends with white space and is no longer than the input. |
| StickerSearch.TrimCutsOnlyWhitespace | submodules/TelegramUI/TelegramUI/StickerPaneSearchContentNode.swift:270 | The trimmed text is the input with only white space cut from its two ends. |
| StickerSearch.EntryStableId | submodules/TelegramUI/TelegramUI/StickerPaneSearchContentNode.swift:35-42 | A sticker is identified by its shown code and its file id, and a pack by its info's collection id. |
| StickerSearch.EntryLessOrder | submodules/TelegramUI/TelegramUI/StickerPaneSearchContentNode.swift:73-90 | Under the comparator `EntryLess`, every sticker comes before every pack and never after. One kind orders by index. The comparator is a strict order. |
| StickerSearch.KeepFirst | submodules/TelegramUI/TelegramUI/StickerPaneSearchContentNode.swift:362-372 | Every kept sticker is a found one with a file id not seen before, and no two kept stickers share an id. |
| StickerSearch.KeepFirstComplete | submodules/TelegramUI/TelegramUI/StickerPaneSearchContentNode.swift:362-372 | Every found sticker with an id not seen before has its id kept. |
| StickerSearch.FirstWithIdIsFirst | submodules/TelegramUI/TelegramUI/StickerPaneSearchContentNode.swift:364-365 | No found sticker before the first occurrence of an id has that id. |
| StickerSearch.KeptIsFirstOccurrence | submodules/TelegramUI/TelegramUI/StickerPaneSearchContentNode.swift:362-372 | Each kept sticker is the first found sticker with its id. |
| StickerSearch.KeptFollowsFirstOccurrences | submodules/TelegramUI/TelegramUI/StickerPaneSearchContentNode.swift:362-372 | Kept stickers appear in the order of their ids' first occurrences. |
| StickerSearch.KeptStickersAreDistinctAndComplete | submodules/TelegramUI/TelegramUI/StickerPaneSearchContentNode.swift:362-372 | Starting from nothing seen, no file id is kept twice and every found file id is kept. Each kept sticker is the first found sticker with its id, and the kept stickers follow the order of those first occurrences. |
| StickerSearch.StickerEntries | submodules/TelegramUI/TelegramUI/StickerPaneSearchContentNode.swift:364-372 | One sticker entry per kept sticker, with consecutive indices. |
| StickerSearch.ShownCodes | submodules/TelegramUI/TelegramUI/StickerPaneSearchContentNode.swift:366-369 | A code is shown exactly when it differs from the previous kept sticker's code. |
| StickerSearch.TopItemsMembers | submodules/TelegramUI/TelegramUI/StickerPaneSearchContentNode.swift:375-382 | The top items of a collection (`TopItems`) are exactly the sticker-pack items found under it. |
| StickerSearch.TopItemsAppend | submodules/TelegramUI/TelegramUI/StickerPaneSearchContentNode.swift:375-382 | Top items split over concatenation. A single found item contributes itself exactly when it is a sticker-pack item of the collection. So the top items are the matching items in found order. |
| StickerSearch.PackInfos | submodules/TelegramUI/TelegramUI/StickerPaneSearchContentNode.swift:373-374 | The infos kept are exactly the found infos that carry sticker-pack information. |
| StickerSearch.PackInfosAppend | submodules/TelegramUI/TelegramUI/StickerPaneSearchContentNode.swift:373-374 | The kept infos split over concatenation, so they keep their found order. |
| StickerSearch.GlobalEntries | submodules/TelegramUI/TelegramUI/StickerPaneSearchContentNode.swift:373-386 | One entry per sticker-pack info, in found order, indexed consecutively. Each entry has the info, its installed flag, and the top items found under the collection id the info was listed with. |
| StickerSearch.SearchEntries | submodules/TelegramUI/TelegramUI/StickerPaneSearchContentNode.swift:361-386 | The handler's loop builds the kept stickers' entries, then the packs, indexed consecutively from 0. |
| StickerSearch.EntriesOrdered | submodules/TelegramUI/TelegramUI/StickerPaneSearchContentNode.swift:361-386 | The built entries are in the comparator's order. |
| StickerSearch.ApplyResult | submodules/TelegramUI/TelegramUI/StickerPaneSearchContentNode.swift:350-397 | No result shows only the trending pane. A result shows the grid. The placeholder is updated only for a final or non-empty result, and is then hidden exactly when there are entries. |
| StickerSearch.EmptyTextShowsTrending | submodules/TelegramUI/TelegramUI/StickerPaneSearchContentNode.swift:337-340 | Empty text searches nothing, leaving the trending pane visible with the grid and placeholder hidden. |
| DiscussionGroupSearch.BuildIndex | submodules/TelegramUI/TelegramUI/ChannelDiscussionGroupSearchContainerNode.swift:143-151 | Every token of every peer is a key, and a key lists exactly the peers holding it. |
| DiscussionGroupSearch.AddToken | submodules/TelegramUI/TelegramUI/ChannelDiscussionGroupSearchContainerNode.swift:145-149 | The peer is appended under the token, creating the key if needed; every other key is untouched. |
| DiscussionGroupSearch.AddTokens | submodules/TelegramUI/TelegramUI/ChannelDiscussionGroupSearchContainerNode.swift:144-150 | The keys become the old keys plus the peer's tokens. A key lists the peer exactly when it is one of its tokens, and otherwise what it listed before. |
| DiscussionGroupSearch.AddUnseen | submodules/TelegramUI/TelegramUI/ChannelDiscussionGroupSearchContainerNode.swift:166-171 | Only peers with a new id are appended, so ids stay distinct, and every id ends up present. |
| DiscussionGroupSearch.Collect | submodules/TelegramUI/TelegramUI/ChannelDiscussionGroupSearchContainerNode.swift:163-175 | An id is found exactly when some key matched by a query token lists it; ids stay distinct. |
| DiscussionGroupSearch.FoundPeers | submodules/TelegramUI/TelegramUI/ChannelDiscussionGroupSearchContainerNode.swift:159-175 | No peer id is found twice. |
| DiscussionGroupSearch.FoundPeersExactly | submodules/TelegramUI/TelegramUI/ChannelDiscussionGroupSearchContainerNode.swift:143-175 | Only candidates are found, no id twice, and a peer is found exactly when a query token is a prefix of one of its tokens. |
| DiscussionGroupSearch.Entries | submodules/TelegramUI/TelegramUI/ChannelDiscussionGroupSearchContainerNode.swift:176-178 | Each entry's index is its position. |
| DiscussionGroupSearch.EntriesIndexedAndDistinct | submodules/TelegramUI/TelegramUI/ChannelDiscussionGroupSearchContainerNode.swift:58-64 | Entries are in the order of the comparator `EntryLess` (by index) with distinct stable ids, and two entries are equal exactly when they are the same position. |
| DiscussionGroupSearch.QueryForText | submodules/TelegramUI/TelegramUI/ChannelDiscussionGroupSearchContainerNode.swift:228-234 | Empty text clears the query, and any other text is the query. |
| DiscussionGroupSearch.SearchEntries | submodules/TelegramUI/TelegramUI/ChannelDiscussionGroupSearchContainerNode.swift:153-180 | No entries for a missing or empty query; otherwise the entries of the peers found for the lower-cased query's tokens. |
| DiscussionGroupSearch.EmptyTextHasNoEntries | submodules/TelegramUI/TelegramUI/ChannelDiscussionGroupSearchContainerNode.swift:155-157 | Clearing the search text yields no entries. |
| HashtagPanel.WithUpdatedTheme | submodules/TelegramUI/TelegramUI/HashtagChatInputContextPanelNode.swift:30-32 | Index, text, stable id and order are kept; only the theme changes. |
| HashtagPanel.DedupKeepsFirstOccurrences | submodules/TelegramUI/TelegramUI/HashtagChatInputContextPanelNode.swift:86-100 | The de-duplicated texts are those of the results, each once, in the order of their first occurrences. |
| HashtagPanel.UpdateResults | submodules/TelegramUI/TelegramUI/HashtagChatInputContextPanelNode.swift:86-100 | The loop skipping seen stable ids builds the entries of the de-duplicated results. |
| HashtagPanel.EntriesOfResults | submodules/TelegramUI/TelegramUI/HashtagChatInputContextPanelNode.swift:21-40 | Each result text appears once, with consecutive indices from 0 and distinct stable ids, in order of first occurrence, and so in the order of the comparator `EntryLess`. |
| HashtagPanel.FirstHashtagQuery | submodules/TelegramUI/TelegramUI/HashtagChatInputContextPanelNode.swift:107-113 | The first range whose kinds are exactly the hashtag query, or none when there is no such range. |
| HashtagPanel.HashtagSelectedReplacesQuery | submodules/TelegramUI/TelegramUI/HashtagChatInputContextPanelNode.swift:106-126 | In `HashtagSelected`, the first hashtag query range is replaced by the hashtag and a space, keeping the text around it. The caret lands after the space. Without such a range the input is unchanged. |
| AutoremoveTimeout.Decode | submodules/TelegramCore/TelegramCore/AutoremoveTimeoutMessageAttribute.swift:27-30 | The timeout is the Int32 under "t", or 0 when it is missing. The countdown is present exactly when "c" holds an Int32, and is then that value. |
| AutoremoveTimeout.Encode | submodules/TelegramCore/TelegramCore/AutoremoveTimeoutMessageAttribute.swift:32-39 | Writes exactly "t" and "c", and decoding gives the attribute back. |
| AutoremoveTimeout.ContainsSecretMedia | submodules/TelegramCore/TelegramCore/AutoremoveTimeoutMessageAttribute.swift:43-73 | True exactly when the first timer attribute exists with a timeout of at most a minute and some media is an image, video, GIF, voice or music. |
| AutoremoveTimeout.SecretMediaDuration | submodules/TelegramCore/TelegramCore/AutoremoveTimeoutMessageAttribute.swift:75-100 | None without a timer attribute, whatever its timeout. Otherwise the first image or file decides: an image gives none and a file its duration. Nothing when there is neither. |
| ThemeCodable.Required | submodules/TelegramPresentationData/Sources/PresentationThemeCodable.swift:1429-1442 | A required key's value, or keyNotFound for that key. |
| ThemeCodable.DecodeColor | submodules/TelegramPresentationData/Sources/PresentationThemeCodable.swift:9-18 | "clear" in any case is the clear colour. A missing or non-string value throws the colour error. |
| ThemeCodable.EncodeColor | submodules/TelegramPresentationData/Sources/PresentationThemeCodable.swift:20-28 | "clear" exactly for the clear colour, eight hex digits of ARGB when translucent, six of RGB when opaque. |
| ThemeCodable.ColorRoundTrip | submodules/TelegramPresentationData/Sources/PresentationThemeCodable.swift:9-28 | Decoding an encoded colour gives the colour back. |
| ThemeCodable.HexColorRead | submodules/TelegramPresentationData/Sources/PresentationThemeCodable.swift:9-28 | A colour other than clear is written as text that is not "clear" in any case, and the hex reader reads the colour back from it. |
| ThemeCodable.DecodeColors | submodules/TelegramPresentationData/Sources/PresentationThemeCodable.swift:386-408 | A section decodes exactly when every one of its colours does, and then holds those colours under exactly its keys. |
| ThemeCodable.EncodeColors | submodules/TelegramPresentationData/Sources/PresentationThemeCodable.swift:410-431 | Exactly the given keys are written, each holding its colour's encoding. |
| ThemeCodable.DecodedSection | submodules/TelegramPresentationData/Sources/PresentationThemeCodable.swift:386-408 | When every key decodes to its colour, the section holds exactly those colours. |
| ThemeCodable.SectionRoundTrip | submodules/TelegramPresentationData/Sources/PresentationThemeCodable.swift:386-431 | When every key the decoder reads is one the encoder writes, the section decodes back to its colours. |
| ThemeCodable.SectionMissingKeyFails | submodules/TelegramPresentationData/Sources/PresentationThemeCodable.swift:386-431 | A key read but never written makes decoding the encoder's output fail. |
| ThemeCodable.DecodeStatusBarStyle | submodules/TelegramPresentationData/Sources/PresentationThemeCodable.swift:61-76 | White exactly for "white" in any case; everything else, string or not, is black. |
| ThemeCodable.StatusBarStyleRoundTrip | submodules/TelegramPresentationData/Sources/PresentationThemeCodable.swift:61-87 | Decoding an encoded status-bar style gives it back. |
| ThemeCodable.EncodeStatusBarStyle | submodules/TelegramPresentationData/Sources/PresentationThemeCodable.swift:78-86 | Black is written as "black" and white as "white". |
| ThemeCodable.DecodeActionSheetBackgroundType | submodules/TelegramPresentationData/Sources/PresentationThemeCodable.swift:89-104 | Dark exactly for "dark" in any case; everything else is light. |
| ThemeCodable.ActionSheetBackgroundTypeRoundTrip | submodules/TelegramPresentationData/Sources/PresentationThemeCodable.swift:89-115 | Decoding an encoded background type gives it back. |
| ThemeCodable.EncodeActionSheetBackgroundType | submodules/TelegramPresentationData/Sources/PresentationThemeCodable.swift:106-114 | Light is written as "light" and dark as "dark". |
| ThemeCodable.DecodeKeyboardColor | submodules/TelegramPresentationData/Sources/PresentationThemeCodable.swift:117-132 | Dark exactly for "dark" in any case; everything else is light. |
| ThemeCodable.KeyboardColorRoundTrip | submodules/TelegramPresentationData/Sources/PresentationThemeCodable.swift:117-143 | Decoding an encoded keyboard colour gives it back. |
| ThemeCodable.EncodeKeyboardColor | submodules/TelegramPresentationData/Sources/PresentationThemeCodable.swift:134-142 | Light is written as "light" and dark as "dark". |
| ThemeCodable.FormatInt32Hex | submodules/TelegramPresentationData/Sources/PresentationThemeCodable.swift:54 | Lower-case hexadecimal whose value is the Int32's 32-bit pattern. |
| ThemeCodable.EncodeWallpaper | submodules/TelegramPresentationData/Sources/PresentationThemeCodable.swift:48-58 | "builtin" for the built-in wallpaper, whatever its settings. A colour is written as hexadecimal of its 32-bit pattern. Other cases write nothing. |
| ThemeCodable.WallpaperFromString | submodules/TelegramPresentationData/Sources/PresentationThemeCodable.swift:33-43 | The branches yield the built-in wallpaper with default settings, or a 24-bit colour. A non-string yields an error. |
| ThemeCodable.DecodeWallpaperAsWritten | submodules/TelegramPresentationData/Sources/PresentationThemeCodable.swift:31-46 | The decoder as written never succeeds. |
| ThemeCodable.DecodeWallpaper | submodules/TelegramPresentationData/Sources/PresentationThemeCodable.swift:31-46 | The corrected decoder returns the wallpaper the string branches assign, or their error, instead of always throwing. |
| ThemeCodable.WallpaperAsWrittenRejectsOwnOutput | submodules/TelegramPresentationData/Sources/PresentationThemeCodable.swift:31-58 | As written, even the encoder's own output fails to decode, while the corrected decoder reads "builtin". |
| ThemeCodable.WallpaperRoundTrip | submodules/TelegramPresentationData/Sources/PresentationThemeCodable.swift:31-58 | The corrected decoder reads back every 24-bit colour. It reads any built-in wallpaper as the built-in one with default settings. |
| ThemeCodable.ColorWallpaperRead | submodules/TelegramPresentationData/Sources/PresentationThemeCodable.swift:33-58 | A 24-bit colour written in hexadecimal is read back as the same colour wallpaper. |
| ThemeCodable.DecodeThemeName | submodules/TelegramPresentationData/Sources/PresentationThemeCodable.swift:1389-1392 | Every string becomes a custom name; anything else fails. |
| ThemeCodable.EncodeThemeName | submodules/TelegramPresentationData/Sources/PresentationThemeCodable.swift:1394-1411 | The built-in names are written as "Day", "Classic", "Night Tinted" and "Night". A custom name is written as itself. |
| ThemeCodable.ThemeNameRoundTrip | submodules/TelegramPresentationData/Sources/PresentationThemeCodable.swift:1388-1412 | Exactly custom names survive a round trip; built-in names come back as custom ones. |
| ThemeCodable.DecodeActionSheet | submodules/TelegramPresentationData/Sources/PresentationThemeCodable.swift:386-408 | A decoded sheet holds exactly the sheet's colour keys, each decoded from its key, and the background type under bgType. A missing bgType fails. |
| ThemeCodable.EncodeActionSheetAsWritten | submodules/TelegramPresentationData/Sources/PresentationThemeCodable.swift:410-431 | Every colour key but itemHighlightedBg is written, and itemHighlightedBg never is. |
| ThemeCodable.EncodeActionSheet | submodules/TelegramPresentationData/Sources/PresentationThemeCodable.swift:410-431 | Every colour key the decoder reads is written. |
| ThemeCodable.ActionSheetAsWrittenRejectsOwnOutput | submodules/TelegramPresentationData/Sources/PresentationThemeCodable.swift:386-431 | As written, no action sheet decodes from its own encoding. |
| ThemeCodable.ActionSheetRoundTrip | submodules/TelegramPresentationData/Sources/PresentationThemeCodable.swift:386-431 | With the missing key written, every valid action sheet survives a round trip. |
| ThemeCodable.RequiredAll | submodules/TelegramPresentationData/Sources/PresentationThemeCodable.swift:1434-1441 | Succeeds exactly when every key is present, giving their values; otherwise reports a missing key. |
| ThemeCodable.DecodedThemeIsValid | submodules/TelegramPresentationData/Sources/PresentationThemeCodable.swift:1429-1442 | A theme decoded by `DecodeTheme` came from an object holding every required key, has every section and a custom name. |
| ThemeCodable.EncodeThemeWith | submodules/TelegramPresentationData/Sources/PresentationThemeCodable.swift:1444-1457 | The name, author (nil when absent), dark flag, action sheet and every section are written under their keys. |
| ThemeCodable.EncodeThemeAsWritten | submodules/TelegramPresentationData/Sources/PresentationThemeCodable.swift:1444-1457 | As written, the action sheet is stored as the action-sheet encoder as written produces it. |
| ThemeCodable.EncodeTheme | submodules/TelegramPresentationData/Sources/PresentationThemeCodable.swift:1444-1457 | With the corrected action-sheet encoder, the action sheet is stored as that encoder produces it. |
| ThemeCodable.ThemeAsWrittenRejectsOwnOutput | submodules/TelegramPresentationData/Sources/PresentationThemeCodable.swift:1429-1457 | As written, no theme decodes from its own encoding. |
| ThemeCodable.ThemeRoundTrip | submodules/TelegramPresentationData/Sources/PresentationThemeCodable.swift:1429-1457 | With the corrected action-sheet encoder, a valid theme with a custom name survives a round trip. |
| ThemeCodable.ThemeOptionalFields | submodules/TelegramPresentationData/Sources/PresentationThemeCodable.swift:1432-1433 | Removing author and dark gives the same outcome with nil and false in their place. |
| ThemeCodable.ThemeRequiresKeys | submodules/TelegramPresentationData/Sources/PresentationThemeCodable.swift:1431-1441 | Any missing required key makes decoding fail. |
| VoiceCallDataSaving.StableId | submodules/TelegramUI/TelegramUI/VoiceCallDataSavingController.swift:32-43 | Stable ids lie in 0..3. |
| VoiceCallDataSaving.Action | submodules/TelegramUI/TelegramUI/VoiceCallDataSavingController.swift:80-93 | A tap on an option entry selects never, cellular or always, never the setting without an entry. |
| VoiceCallDataSaving.OptionTitle | submodules/TelegramUI/TelegramUI/VoiceCallDataSavingController.swift:98-109 | Never, cellular and always get their own titles from the strings, and an option without an entry has the empty title. |
| VoiceCallDataSaving.Entries | submodules/TelegramUI/TelegramUI/VoiceCallDataSavingController.swift:111-118 | Exactly never, cellular, always and info, with stable ids 0..3 in the order of the comparator `EntryLess`. Each option shows its title and is checked exactly when it is the current setting. |
| VoiceCallDataSaving.AtMostOneChecked | submodules/TelegramUI/TelegramUI/VoiceCallDataSavingController.swift:113-115 | At most one option is checked, and one is checked exactly when the setting has an entry. |
| VoiceCallDataSaving.UpdateSelection | submodules/TelegramUI/TelegramUI/VoiceCallDataSavingController.swift:140-146 | Only the data-saving option changes. |
| VoiceCallDataSaving.TapChecksTappedEntry | submodules/TelegramUI/TelegramUI/VoiceCallDataSavingController.swift:80-91 | Tapping an option and rebuilding the entries checks the tapped entry and no other. |
| NotificationLocation.ParseFileLocation | submodules/TelegramUI/TelegramUI/NotificationContentContext.swift:27-45 | A result exactly when the four required fields have their types. It copies them, has no size, and has the decoded reference exactly when "fileReference" is a string. |
| NotificationLocation.ParseOfPayload | submodules/TelegramUI/TelegramUI/NotificationContentContext.swift:27-45 | Reading a written location gives back its fields, no size and the decoded reference. |

## Left out

- Reactive plumbing: signal wiring, Postbox and network calls, and the sending of updated rights are not modelled. Only the pure functions the closures apply are. SlowMode.swift is not part of this model.
- List diffing and UI: list and grid transitions, item construction, and Core Animation and layout code are not modelled. This includes the frame computation in MultiplexedVideoNode and `topInsetForLayout`.
- Localised strings and themes: entries keep the data the logic decides. Themes compared by identity are an opaque reference.
- Ping times in the proxy list's status text: they use floating point. The modelled text records which status string is shown and whether a ping follows it, not the ping value.
- Foreign helpers are parameters. These are `UIColor(hexString:)` (only `ReadsHexColors` is assumed), percent-encoding, `MTProxySecret` serialisation, `stringIndexTokens`/`indexTokens`, `dataWithHexString`, the single-emoji test, Swift's `String.count` (a grapheme-cluster count, used by the sticker query's length thresholds), `textInputStateContextQueryRangeAndType` and the `addressName` definition.
- Swift dictionary order: the discussion-group index is enumerated in any order, given as a parameter.
- Strings: characters stand for UTF-16 units. Trimming and lower-casing cover ASCII only.
- StickerSearch.RouteQuery: the `> 1` and `< 3` length thresholds use the `characterCount` parameter, Swift's grapheme-cluster count; what that count is for a given text is not modelled.
- `basicEmoji` of the sticker query and the emoji-keyword searches themselves are not modelled; the route records what would be searched.
- TelegramChannel: the photo, restriction info and peer id types are not modelled, and the other stored objects are kept whole.
- Theme sections other than the action sheet are kept as JSON values, because their own codecs are not part of this model.
- Voice-call data saving: which option the screen shows as current is computed elsewhere and is taken as given.
- Int32 overflow of the channel's peer-item index is not modelled.
- The proxy entries' stable ids are not modelled.
- LinearPartition.LinearPartitionForWeights: the largest row sum is stated equal to the table's last cell, and optimal, only for non-negative weights. With negative weights an inserted empty row sums to 0 and can exceed the cell.
- LinearPartition.LinearPartitionForWeights: weights are unbounded integers, so overflow of Swift `Int` sums is not modelled.
- ThemeCodable.WallpaperRoundTrip: stated for the built-in wallpaper and 24-bit colours only. Other Int32 values are written as their full 32-bit pattern and read back as 24 bits.
- ThemeCodable.WallpaperRoundTrip: a built-in wallpaper comes back with the default settings, because the encoder drops its settings. The settings type (`WallpaperSettings`) is not part of this model; it is a type parameter, and its default value is an argument.
- ThemeCodable.EncodeColor: `UIColor` is modelled as an exact 32-bit ARGB value, not as floating-point components. Comparison with the clear colour and the `alpha < 1.0` test become exact integer tests, and rounding of components is not modelled.
- NotificationLocation.ParseFileLocation: payload values are typed exactly as Int32, Int64 or string. `NSNumber` bridging, where one number casts to several integer types, is not modelled.
- ThemeCodable.DecodeColor: what a string other than "clear" decodes to is left to the `parse` parameter.

## Findings

| source | as written | input that shows it | evidently intended | confidence | as-written member | corrected member |
|---|---|---|---|---|---|---|
| submodules/TelegramPresentationData/Sources/PresentationThemeCodable.swift:31-46 | After the `if let` assigns `self`, control falls through to the trailing `throw`, so the wallpaper decoder never succeeds | the string "builtin" | return the assigned wallpaper | not executed | ThemeCodable.WallpaperAsWrittenRejectsOwnOutput | ThemeCodable.WallpaperRoundTrip |
| submodules/TelegramPresentationData/Sources/PresentationThemeCodable.swift:410-431 | The action-sheet encoder never writes itemHighlightedBg, which the decoder requires | any action sheet | write itemHighlightedBg like the other colours | not executed | ThemeCodable.ActionSheetAsWrittenRejectsOwnOutput | ThemeCodable.ActionSheetRoundTrip |
| submodules/TelegramUI/TelegramUI/ProxyListSettingsController.swift:141-190 | The comparator says shareProxyList < shareProxyList, and neither shareProxyList nor useForCalls is less than the other | the entries of a list with an active SOCKS5 server | a strict order with the share button before the calls switch | not executed | ProxySettings.AsWrittenMisordersEntries | ProxySettings.EntriesOrdered |
