/**
 * Sticker search in the sticker pane: how the typed text is routed to a
 * search, how the found stickers and sticker packs become grid entries, the
 * entries' identity and order, and which of the grid, the trending pane and
 * the not-found placeholder are shown.
 *
 * The searches themselves, the emoji tests on the query and the
 * Unicode-aware trimming are not part of this model; the emoji test is a
 * parameter.
 */
module StickerSearch {
  import opened Wrappers
  import opened Text

  // ---------------------------------------------------------------------
  // Query routing
  // ---------------------------------------------------------------------

  /** Which search a text starts. */
  datatype Route =
    | NoSearch
    | EmojiSearch(emoji: string)
    | KeywordSearch(languageCode: string, query: string, completeMatch: bool, alsoEnglish: bool)
    | PacksOnly

  predicate IsWhitespace(c: char) {
    c == ' ' || c == '\t' || c == '\n' || c == '\r' || c == '\U{000B}' || c == '\U{000C}'
  }

  /** `trimmingCharacters(in: .whitespacesAndNewlines)` restricted to ASCII white space. */
  function Trim(s: string): (r: string)
    ensures |r| <= |s|
    ensures |r| > 0 ==> !IsWhitespace(r[0]) && !IsWhitespace(r[|r| - 1])
    decreases |s|
  {
    if |s| > 0 && IsWhitespace(s[0]) then Trim(s[1..])
    else if |s| > 0 && IsWhitespace(s[|s| - 1]) then Trim(s[..|s| - 1])
    else s
  }

  /** `s` with `a` characters cut from the front and `b` from the back, all of them white space. */
  predicate CutsWhitespace(s: string, a: nat, b: nat, r: string) {
    && a + b <= |s| && r == s[a..|s| - b]
    && (forall k :: 0 <= k < a ==> IsWhitespace(s[k]))
    && (forall k :: |s| - b <= k < |s| ==> IsWhitespace(s[k]))
  }

  /** A white-space character in front of a cut text is one more character cut from the front. */
  lemma CutsWhitespaceFront(s: string, a: nat, b: nat, r: string)
    requires |s| > 0 && IsWhitespace(s[0]) && CutsWhitespace(s[1..], a, b, r)
    ensures CutsWhitespace(s, a + 1, b, r)
  {
    assert s[1..][a..|s[1..]| - b] == s[a + 1..|s| - b];
    forall k | 0 <= k < a + 1 ensures IsWhitespace(s[k]) {
      if k > 0 {
        assert s[k] == s[1..][k - 1];
      }
    }
    forall k | |s| - b <= k < |s| ensures IsWhitespace(s[k]) {
      assert s[k] == s[1..][k - 1];
    }
  }

  /** A white-space character behind a cut text is one more character cut from the back. */
  lemma CutsWhitespaceBack(s: string, a: nat, b: nat, r: string)
    requires |s| > 0 && IsWhitespace(s[|s| - 1]) && CutsWhitespace(s[..|s| - 1], a, b, r)
    ensures CutsWhitespace(s, a, b + 1, r)
  {
    var init := s[..|s| - 1];
    assert init[a..|init| - b] == s[a..|s| - (b + 1)];
    forall k | 0 <= k < a ensures IsWhitespace(s[k]) {
      assert s[k] == init[k];
    }
    forall k | |s| - (b + 1) <= k < |s| ensures IsWhitespace(s[k]) {
      if k < |s| - 1 {
        assert s[k] == init[k];
      }
    }
  }

  /**
   * Trimming removes white space from the two ends and nothing else: the
   * result is the text between a white-space prefix and a white-space suffix.
   */
  lemma {:induction false} TrimCutsOnlyWhitespace(s: string)
    ensures exists a: nat, b: nat :: CutsWhitespace(s, a, b, Trim(s))
    decreases |s|
  {
    if |s| > 0 && IsWhitespace(s[0]) {
      TrimCutsOnlyWhitespace(s[1..]);
      var a: nat, b: nat :| CutsWhitespace(s[1..], a, b, Trim(s[1..]));
      CutsWhitespaceFront(s, a, b, Trim(s));
    } else if |s| > 0 && IsWhitespace(s[|s| - 1]) {
      TrimCutsOnlyWhitespace(s[..|s| - 1]);
      var a: nat, b: nat :| CutsWhitespace(s[..|s| - 1], a, b, Trim(s[..|s| - 1]));
      CutsWhitespaceBack(s, a, b, Trim(s));
    } else {
      assert CutsWhitespace(s, 0, 0, Trim(s));
    }
  }

  /**
   * `updateText`: no search for empty text; a single emoji is looked up
   * directly; a query of two or more characters with a usable language goes
   * through emoji keywords, matched completely below three characters and
   * extended with English keywords for non-English languages; any other
   * text searches only the sticker packs. Characters are counted by
   * `characterCount`, which stands for Swift's grapheme-cluster count.
   */
  function RouteQuery(text: string, languageCode: Option<string>, isSingleEmoji: string -> bool,
                      characterCount: string -> nat): (r: Route)
    ensures r.NoSearch? <==> text == ""
    ensures r.KeywordSearch? ==>
      && languageCode.Some? && r.languageCode == languageCode.value
      && characterCount(Trim(text)) > 1 && r.query == Lower(Trim(text))
      && (r.completeMatch <==> characterCount(Trim(text)) < 3)
      && (r.alsoEnglish <==> !IsPrefix("en", Lower(languageCode.value)))
    ensures r.KeywordSearch? ==> r.languageCode != "" && r.languageCode != "emoji"
    ensures r.EmojiSearch? <==> text != "" && isSingleEmoji(Trim(text))
    ensures r.EmojiSearch? ==> r.emoji == text
    ensures r.KeywordSearch? <==>
      && text != "" && !isSingleEmoji(Trim(text)) && characterCount(Trim(text)) > 1
      && languageCode.Some? && languageCode.value != "" && languageCode.value != "emoji"
    ensures r.PacksOnly? <==> text != "" && !r.EmojiSearch? && !r.KeywordSearch?
  {
    if text == "" then NoSearch
    else
      var query := Trim(text);
      if isSingleEmoji(query) then EmojiSearch(text)
      else if characterCount(query) > 1 && languageCode.Some? && languageCode.value != "" && languageCode.value != "emoji" then
        KeywordSearch(languageCode.value, Lower(query), characterCount(query) < 3, !IsPrefix("en", Lower(languageCode.value)))
      else PacksOnly
  }

  // ---------------------------------------------------------------------
  // Found items
  // ---------------------------------------------------------------------

  datatype MediaId = MediaId(namespace: Int32, id: Int64)
  datatype CollectionId = CollectionId(namespace: Int32, id: Int64)

  /** A found sticker; its file may lack an id. */
  datatype FoundSticker = FoundSticker(fileId: Option<MediaId>)

  datatype PackInfo = PackInfo(id: CollectionId)
  datatype PackItem = PackItem(fileId: MediaId)

  /** An entry of the found packs' infos; `info` is None when it is not sticker-pack information. */
  datatype FoundInfo = FoundInfo(collectionId: CollectionId, info: Option<PackInfo>, installed: bool)

  /** An item of the found packs; `item` is None when it is not a sticker-pack item. */
  datatype FoundItem = FoundItem(collectionId: CollectionId, item: Option<PackItem>)

  datatype Entry =
    | StickerEntry(index: int, code: Option<string>, sticker: FoundSticker)
    | GlobalEntry(index: int, info: PackInfo, topItems: seq<PackItem>, installed: bool)

  datatype StableId = StickerId(code: Option<string>, fileId: Int64) | GlobalId(collection: CollectionId)

  /** `stableId`: a sticker by its shown code and file id, a pack by its collection id. */
  function EntryStableId(e: Entry): (r: StableId)
    requires e.StickerEntry? ==> e.sticker.fileId.Some?
    ensures r.StickerId? <==> e.StickerEntry?
    ensures e.StickerEntry? ==> r == StickerId(e.code, e.sticker.fileId.value.id)
    ensures e.GlobalEntry? ==> r == GlobalId(e.info.id)
  {
    match e
    case StickerEntry(_, code, sticker) => StickerId(code, sticker.fileId.value.id)
    case GlobalEntry(_, info, _, _) => GlobalId(info.id)
  }

  /** `<`: stickers before packs, and entries of one kind by index. */
  predicate EntryLess(lhs: Entry, rhs: Entry) {
    match lhs
    case StickerEntry(lhsIndex, _, _) =>
      (match rhs case StickerEntry(rhsIndex, _, _) => lhsIndex < rhsIndex case GlobalEntry(_, _, _, _) => true)
    case GlobalEntry(lhsIndex, _, _, _) =>
      (match rhs case StickerEntry(_, _, _) => false case GlobalEntry(rhsIndex, _, _, _) => lhsIndex < rhsIndex)
  }

  /** Every sticker comes before every pack, never the other way, and one kind orders by index; a strict order. */
  lemma EntryLessOrder(a: Entry, b: Entry, c: Entry)
    ensures a.StickerEntry? && b.GlobalEntry? ==> EntryLess(a, b) && !EntryLess(b, a)
    ensures a.StickerEntry? == b.StickerEntry? ==> (EntryLess(a, b) <==> a.index < b.index)
    ensures !EntryLess(a, a)
    ensures EntryLess(a, b) && EntryLess(b, c) ==> EntryLess(a, c)
  {
  }

  // ---------------------------------------------------------------------
  // Entries
  // ---------------------------------------------------------------------

  /** The file ids of a run of found stickers, in order. */
  function FileIds(kept: seq<(Option<string>, FoundSticker)>): (r: seq<Option<MediaId>>)
    ensures |r| == |kept|
    ensures forall i :: 0 <= i < |kept| ==> r[i] == kept[i].1.fileId
  {
    if |kept| == 0 then [] else [kept[0].1.fileId] + FileIds(kept[1..])
  }

  /** The found stickers kept, in order: those with a file id not seen before (nor in `seen`). */
  function KeepFirst(stickers: seq<(Option<string>, FoundSticker)>, seen: set<MediaId>): (r: seq<(Option<string>, FoundSticker)>)
    ensures forall i :: 0 <= i < |r| ==> r[i] in stickers && r[i].1.fileId.Some? && r[i].1.fileId.value !in seen
    ensures forall i, j :: 0 <= i < j < |r| ==> r[i].1.fileId != r[j].1.fileId
  {
    if |stickers| == 0 then []
    else
      var (code, sticker) := stickers[0];
      if sticker.fileId.Some? && sticker.fileId.value !in seen then
        [stickers[0]] + KeepFirst(stickers[1..], seen + {sticker.fileId.value})
      else KeepFirst(stickers[1..], seen)
  }

  /** Every found sticker whose file id is new has its id among the kept stickers. */
  lemma {:induction false} KeepFirstComplete(stickers: seq<(Option<string>, FoundSticker)>, seen: set<MediaId>)
    ensures forall p :: p in stickers && p.1.fileId.Some? && p.1.fileId.value !in seen ==>
      p.1.fileId in FileIds(KeepFirst(stickers, seen))
  {
    if |stickers| > 0 {
      var sticker := stickers[0].1;
      assert forall p :: p in stickers ==> p == stickers[0] || p in stickers[1..];
      if sticker.fileId.Some? && sticker.fileId.value !in seen {
        var rest := KeepFirst(stickers[1..], seen + {sticker.fileId.value});
        KeepFirstComplete(stickers[1..], seen + {sticker.fileId.value});
        assert FileIds([stickers[0]] + rest) == [sticker.fileId] + FileIds(rest);
      } else {
        KeepFirstComplete(stickers[1..], seen);
      }
    }
  }

  /** The position of the first found sticker with file id `id`, or the length when there is none. */
  function FirstWithId(stickers: seq<(Option<string>, FoundSticker)>, id: MediaId): (r: nat)
    ensures r <= |stickers|
    ensures r < |stickers| ==> stickers[r].1.fileId == Some(id)
  {
    if |stickers| == 0 then 0
    else if stickers[0].1.fileId == Some(id) then 0
    else 1 + FirstWithId(stickers[1..], id)
  }

  /** No found sticker before the first occurrence has the file id. */
  lemma {:induction false} FirstWithIdIsFirst(stickers: seq<(Option<string>, FoundSticker)>, id: MediaId, k: nat)
    requires k < FirstWithId(stickers, id)
    ensures stickers[k].1.fileId != Some(id)
  {
    if k > 0 {
      FirstWithIdIsFirst(stickers[1..], id, k - 1);
    }
  }

  /** Skipping a found sticker with another file id moves the first occurrence back by one. */
  lemma FirstWithIdSkip(stickers: seq<(Option<string>, FoundSticker)>, id: MediaId)
    requires |stickers| > 0 && stickers[0].1.fileId != Some(id)
    ensures FirstWithId(stickers, id) == 1 + FirstWithId(stickers[1..], id)
  {
  }

  /** The i-th kept sticker is the first found sticker with its file id. */
  lemma {:induction false} KeptIsFirstOccurrence(stickers: seq<(Option<string>, FoundSticker)>, seen: set<MediaId>, i: nat)
    requires i < |KeepFirst(stickers, seen)|
    ensures var r := KeepFirst(stickers, seen);
            var k := FirstWithId(stickers, r[i].1.fileId.value);
            k < |stickers| && r[i] == stickers[k]
  {
    var h := stickers[0];
    var tail := stickers[1..];
    var r := KeepFirst(stickers, seen);
    if h.1.fileId.Some? && h.1.fileId.value !in seen {
      var rest := KeepFirst(tail, seen + {h.1.fileId.value});
      assert r == [h] + rest;
      if i > 0 {
        assert r[i] == rest[i - 1];
        KeptIsFirstOccurrence(tail, seen + {h.1.fileId.value}, i - 1);
        FirstWithIdSkip(stickers, r[i].1.fileId.value);
      }
    } else {
      assert r == KeepFirst(tail, seen);
      KeptIsFirstOccurrence(tail, seen, i);
      FirstWithIdSkip(stickers, r[i].1.fileId.value);
    }
  }

  /** Kept stickers come in the order of their first occurrences. */
  lemma {:induction false} KeptFollowsFirstOccurrences(stickers: seq<(Option<string>, FoundSticker)>, seen: set<MediaId>, i: nat, j: nat)
    requires i < j < |KeepFirst(stickers, seen)|
    ensures var r := KeepFirst(stickers, seen);
            FirstWithId(stickers, r[i].1.fileId.value) < FirstWithId(stickers, r[j].1.fileId.value)
    decreases |stickers|, 2
  {
    var h := stickers[0];
    if h.1.fileId.Some? && h.1.fileId.value !in seen {
      KeptFollowsWhenHeadKept(stickers, seen, i, j);
    } else {
      KeptFollowsWhenHeadSkipped(stickers, seen, i, j);
    }
  }

  /** When the first found sticker is kept, it comes first and the rest are kept from the tail. */
  lemma KeepFirstHeadKept(stickers: seq<(Option<string>, FoundSticker)>, seen: set<MediaId>, k: nat)
    requires |stickers| > 0 && stickers[0].1.fileId.Some? && stickers[0].1.fileId.value !in seen
    requires k < |KeepFirst(stickers, seen)|
    ensures var rest := KeepFirst(stickers[1..], seen + {stickers[0].1.fileId.value});
            |KeepFirst(stickers, seen)| == 1 + |rest|
            && KeepFirst(stickers, seen)[k] == if k == 0 then stickers[0] else rest[k - 1]
  {
  }

  lemma {:induction false} KeptFollowsWhenHeadKept(stickers: seq<(Option<string>, FoundSticker)>, seen: set<MediaId>, i: nat, j: nat)
    requires |stickers| > 0 && stickers[0].1.fileId.Some? && stickers[0].1.fileId.value !in seen
    requires i < j < |KeepFirst(stickers, seen)|
    ensures var r := KeepFirst(stickers, seen);
            FirstWithId(stickers, r[i].1.fileId.value) < FirstWithId(stickers, r[j].1.fileId.value)
    decreases |stickers|, 1
  {
    var hid := stickers[0].1.fileId.value;
    var rest := KeepFirst(stickers[1..], seen + {hid});
    KeepFirstHeadKept(stickers, seen, j);
    var idj := rest[j - 1].1.fileId.value;
    assert idj != hid;
    FirstWithIdSkip(stickers, idj);
    if i == 0 {
      KeepFirstHeadKept(stickers, seen, 0);
    } else {
      KeptFollowsAfterKeptHead(stickers, seen, i, j);
    }
  }

  lemma {:induction false} KeptFollowsAfterKeptHead(stickers: seq<(Option<string>, FoundSticker)>, seen: set<MediaId>, i: nat, j: nat)
    requires |stickers| > 0 && stickers[0].1.fileId.Some? && stickers[0].1.fileId.value !in seen
    requires 0 < i < j < |KeepFirst(stickers, seen)|
    ensures var r := KeepFirst(stickers, seen);
            FirstWithId(stickers, r[i].1.fileId.value) < FirstWithId(stickers, r[j].1.fileId.value)
    decreases |stickers|, 0
  {
    var hid := stickers[0].1.fileId.value;
    var rest := KeepFirst(stickers[1..], seen + {hid});
    KeepFirstHeadKept(stickers, seen, i);
    KeepFirstHeadKept(stickers, seen, j);
    var idi := rest[i - 1].1.fileId.value;
    var idj := rest[j - 1].1.fileId.value;
    assert idi != hid && idj != hid;
    KeptFollowsFirstOccurrences(stickers[1..], seen + {hid}, i - 1, j - 1);
    FirstWithIdSkip(stickers, idi);
    FirstWithIdSkip(stickers, idj);
  }

  lemma {:induction false} KeptFollowsWhenHeadSkipped(stickers: seq<(Option<string>, FoundSticker)>, seen: set<MediaId>, i: nat, j: nat)
    requires |stickers| > 0 && !(stickers[0].1.fileId.Some? && stickers[0].1.fileId.value !in seen)
    requires i < j < |KeepFirst(stickers, seen)|
    ensures var r := KeepFirst(stickers, seen);
            FirstWithId(stickers, r[i].1.fileId.value) < FirstWithId(stickers, r[j].1.fileId.value)
    decreases |stickers|, 0
  {
    var tail := stickers[1..];
    var rest := KeepFirst(tail, seen);
    assert KeepFirst(stickers, seen) == rest;
    assert rest[i].1.fileId.value !in seen && rest[j].1.fileId.value !in seen;
    KeptFollowsFirstOccurrences(tail, seen, i, j);
    FirstWithIdSkip(stickers, rest[i].1.fileId.value);
    FirstWithIdSkip(stickers, rest[j].1.fileId.value);
  }

  /** One step of the handler's loop over the found stickers. */
  lemma KeepFirstStep(stickers: seq<(Option<string>, FoundSticker)>, i: nat, seen: set<MediaId>)
    requires i < |stickers|
    ensures var (code, sticker) := stickers[i];
            KeepFirst(stickers[i..], seen) ==
              if sticker.fileId.Some? && sticker.fileId.value !in seen
              then [stickers[i]] + KeepFirst(stickers[i + 1..], seen + {sticker.fileId.value})
              else KeepFirst(stickers[i + 1..], seen)
  {
    assert stickers[i..][0] == stickers[i] && stickers[i..][1..] == stickers[i + 1..];
  }

  /**
   * The sticker entries for the kept stickers, indexed from `start`; a code
   * is shown only when it differs from the code of the previous kept sticker.
   */
  function StickerEntries(kept: seq<(Option<string>, FoundSticker)>, start: int, previousCode: Option<string>): (r: seq<Entry>)
    ensures |r| == |kept|
    ensures forall i :: 0 <= i < |kept| ==> r[i].StickerEntry? && r[i].index == start + i && r[i].sticker == kept[i].1
  {
    if |kept| == 0 then []
    else
      var code := kept[0].0;
      [StickerEntry(start, if code != previousCode then code else None, kept[0].1)]
        + StickerEntries(kept[1..], start + 1, code)
  }

  /** A code is shown exactly when it changes from the previous sticker's, and then it is that code. */
  lemma {:induction false} ShownCodes(kept: seq<(Option<string>, FoundSticker)>, start: int, previousCode: Option<string>, i: nat)
    requires i < |kept|
    ensures var r := StickerEntries(kept, start, previousCode);
            var previous := if i == 0 then previousCode else kept[i - 1].0;
            r[i].code == if kept[i].0 != previous then kept[i].0 else None
  {
    if i > 0 {
      ShownCodes(kept[1..], start + 1, kept[0].0, i - 1);
    }
  }

  /** The found pack items that are sticker-pack items of collection `id`, in order. */
  function TopItems(items: seq<FoundItem>, id: CollectionId): (r: seq<PackItem>)
    ensures |r| <= |items|
  {
    if |items| == 0 then []
    else
      var rest := TopItems(items[1..], id);
      if items[0].collectionId == id && items[0].item.Some? then [items[0].item.value] + rest else rest
  }

  /** The top items of a collection are exactly the sticker-pack items found under it. */
  lemma {:induction false} TopItemsMembers(items: seq<FoundItem>, id: CollectionId)
    ensures forall x :: x in TopItems(items, id) <==> exists e :: e in items && e.collectionId == id && e.item == Some(x)
  {
    if |items| > 0 {
      TopItemsMembers(items[1..], id);
      assert forall e :: e in items[1..] ==> e in items;
      assert forall e :: e in items ==> e == items[0] || e in items[1..];
    }
  }

  /** The top items of a run of found items are those of its parts, one after the other. */
  lemma {:induction false} TopItemsAppend(a: seq<FoundItem>, b: seq<FoundItem>, id: CollectionId)
    ensures TopItems(a + b, id) == TopItems(a, id) + TopItems(b, id)
  {
    if |a| == 0 {
      assert a + b == b;
    } else {
      assert (a + b)[0] == a[0] && (a + b)[1..] == a[1..] + b;
      TopItemsAppend(a[1..], b, id);
    }
  }

  /**
   * A single found item contributes itself exactly when it is a sticker-pack
   * item of the collection; with TopItemsAppend this fixes the top items as
   * the matching items in their found order.
   */
  lemma TopItemsOfOne(e: FoundItem, id: CollectionId)
    ensures TopItems([e], id) == if e.collectionId == id && e.item.Some? then [e.item.value] else []
  {
    assert [e][1..] == [];
  }

  /** The found infos that carry sticker-pack information, in their found order. */
  function PackInfos(infos: seq<FoundInfo>): (r: seq<FoundInfo>)
    ensures |r| <= |infos|
    ensures forall f :: f in r <==> f in infos && f.info.Some?
    ensures forall k :: 0 <= k < |r| ==> r[k].info.Some?
  {
    if |infos| == 0 then []
    else
      var rest := PackInfos(infos[1..]);
      assert forall f :: f in infos[1..] ==> f in infos;
      assert forall f :: f in infos ==> f == infos[0] || f in infos[1..];
      if infos[0].info.Some? then [infos[0]] + rest else rest
  }

  /** The sticker-pack infos of a run are those of its parts, one after the other. */
  lemma {:induction false} PackInfosAppend(a: seq<FoundInfo>, b: seq<FoundInfo>)
    ensures PackInfos(a + b) == PackInfos(a) + PackInfos(b)
  {
    if |a| == 0 {
      assert a + b == b;
    } else {
      assert (a + b)[0] == a[0] && (a + b)[1..] == a[1..] + b;
      PackInfosAppend(a[1..], b);
    }
  }

  /**
   * The pack entries, indexed from `start`: one per sticker-pack info, in
   * order, each with the found items of the collection the info was found
   * under.
   */
  function GlobalEntries(infos: seq<FoundInfo>, items: seq<FoundItem>, start: int): (r: seq<Entry>)
    ensures |r| == |PackInfos(infos)|
    ensures forall k :: 0 <= k < |r| ==>
      var f := PackInfos(infos)[k];
      r[k] == GlobalEntry(start + k, f.info.value, TopItems(items, f.collectionId), f.installed)
  {
    if |infos| == 0 then []
    else if infos[0].info.Some? then
      var head := GlobalEntry(start, infos[0].info.value, TopItems(items, infos[0].collectionId), infos[0].installed);
      var tail := GlobalEntries(infos[1..], items, start + 1);
      assert PackInfos(infos) == [infos[0]] + PackInfos(infos[1..]);
      assert forall k :: 1 <= k < 1 + |tail| ==> ([head] + tail)[k] == tail[k - 1];
      [head] + tail
    else
      assert PackInfos(infos) == PackInfos(infos[1..]);
      GlobalEntries(infos[1..], items, start)
  }

  /** Emitting one sticker entry moves it from the pending part of the list to the emitted part. */
  lemma StickerEntriesStep(emitted: seq<Entry>, k: (Option<string>, FoundSticker), rest: seq<(Option<string>, FoundSticker)>,
                           index: int, previousCode: Option<string>)
    ensures var e := StickerEntry(index, if k.0 != previousCode then k.0 else None, k.1);
            emitted + StickerEntries([k] + rest, index, previousCode) == (emitted + [e]) + StickerEntries(rest, index + 1, k.0)
  {
    var e := StickerEntry(index, if k.0 != previousCode then k.0 else None, k.1);
    var tail := StickerEntries(rest, index + 1, k.0);
    assert StickerEntries([k] + rest, index, previousCode) == [e] + tail by {
      assert ([k] + rest)[0] == k;
      assert ([k] + rest)[1..] == rest;
    }
    SeqAssociative(emitted, [e], tail);
  }

  lemma SeqAssociative<T>(a: seq<T>, b: seq<T>, c: seq<T>)
    ensures a + (b + c) == (a + b) + c
  {
  }

  /** The handler loop's variables: emitted file ids, emitted entries and the code of the last emitted sticker. */
  datatype Scan = Scan(existing: set<MediaId>, entries: seq<Entry>, previousCode: Option<string>)

  /** One turn of the handler loop: a sticker with a new file id is emitted with the next index. */
  function ScanOne(st: Scan, k: (Option<string>, FoundSticker)): Scan {
    var (code, sticker) := k;
    if sticker.fileId.Some? && sticker.fileId.value !in st.existing then
      Scan(st.existing + {sticker.fileId.value},
           st.entries + [StickerEntry(|st.entries|, if code != st.previousCode then code else None, sticker)], code)
    else st
  }

  /** What the loop has built after looking at the first `i` found stickers, against the reference list. */
  predicate Scanned(stickers: seq<(Option<string>, FoundSticker)>, i: nat, st: Scan)
    requires i <= |stickers|
  {
    && st.entries + StickerEntries(KeepFirst(stickers[i..], st.existing), |st.entries|, st.previousCode)
       == StickerEntries(KeepFirst(stickers, {}), 0, None)
    && |KeepFirst(stickers, {})| == |st.entries| + |KeepFirst(stickers[i..], st.existing)|
  }

  /** One turn of the loop keeps what it has built in step with the reference list. */
  lemma ScanStep(stickers: seq<(Option<string>, FoundSticker)>, i: nat, st: Scan)
    requires i < |stickers| && Scanned(stickers, i, st)
    ensures Scanned(stickers, i + 1, ScanOne(st, stickers[i]))
  {
    var (code, sticker) := stickers[i];
    KeepFirstStep(stickers, i, st.existing);
    if sticker.fileId.Some? && sticker.fileId.value !in st.existing {
      var rest := KeepFirst(stickers[i + 1..], st.existing + {sticker.fileId.value});
      StickerEntriesStep(st.entries, stickers[i], rest, |st.entries|, st.previousCode);
    }
  }

  /**
   * The result handler's entry list: the stickers kept from the found ones,
   * then the packs, all indexed consecutively from 0. The loop follows the
   * handler: a running index (the number of entries), the set of file ids
   * already emitted and the code of the last emitted sticker.
   */
  method SearchEntries(stickers: seq<(Option<string>, FoundSticker)>, infos: seq<FoundInfo>, items: seq<FoundItem>)
    returns (entries: seq<Entry>)
    ensures var kept := KeepFirst(stickers, {});
            entries == StickerEntries(kept, 0, None) + GlobalEntries(infos, items, |kept|)
  {
    var st := Scan({}, [], None);
    var i := 0;
    assert stickers[0..] == stickers;
    while i < |stickers|
      invariant 0 <= i <= |stickers|
      invariant Scanned(stickers, i, st)
    {
      ScanStep(stickers, i, st);
      st := ScanOne(st, stickers[i]);
      i := i + 1;
    }
    assert stickers[i..] == [];
    assert KeepFirst(stickers[i..], st.existing) == [];
    assert StickerEntries([], |st.entries|, st.previousCode) == [];
    assert st.entries + [] == st.entries;
    entries := st.entries + GlobalEntries(infos, items, |st.entries|);
  }

  /** The stickers first, then the packs: the entries are in the order `<` describes. */
  lemma EntriesOrdered(kept: seq<(Option<string>, FoundSticker)>, infos: seq<FoundInfo>, items: seq<FoundItem>)
    ensures var r := StickerEntries(kept, 0, None) + GlobalEntries(infos, items, |kept|);
            forall i, j :: 0 <= i < j < |r| ==> EntryLess(r[i], r[j])
  {
  }

  /**
   * Every kept sticker has a distinct file id and is the first found sticker
   * with it, the kept stickers follow the order of those first occurrences,
   * and every found sticker with an id is represented.
   */
  lemma KeptStickersAreDistinctAndComplete(stickers: seq<(Option<string>, FoundSticker)>)
    ensures var kept := KeepFirst(stickers, {});
            && (forall i, j :: 0 <= i < j < |kept| ==> kept[i].1.fileId != kept[j].1.fileId)
            && (forall p :: p in stickers && p.1.fileId.Some? ==> p.1.fileId in FileIds(kept))
            && (forall i :: 0 <= i < |kept| ==>
                  FirstWithId(stickers, kept[i].1.fileId.value) < |stickers|
                  && kept[i] == stickers[FirstWithId(stickers, kept[i].1.fileId.value)])
            && (forall i, j :: 0 <= i < j < |kept| ==>
                  FirstWithId(stickers, kept[i].1.fileId.value) < FirstWithId(stickers, kept[j].1.fileId.value))
  {
    KeepFirstComplete(stickers, {});
    var kept := KeepFirst(stickers, {});
    forall i | 0 <= i < |kept|
      ensures FirstWithId(stickers, kept[i].1.fileId.value) < |stickers|
      ensures kept[i] == stickers[FirstWithId(stickers, kept[i].1.fileId.value)]
    {
      KeptIsFirstOccurrence(stickers, {}, i);
    }
    forall i, j | 0 <= i < j < |kept|
      ensures FirstWithId(stickers, kept[i].1.fileId.value) < FirstWithId(stickers, kept[j].1.fileId.value)
    {
      KeptFollowsFirstOccurrences(stickers, {}, i, j);
    }
  }

  // ---------------------------------------------------------------------
  // Visibility
  // ---------------------------------------------------------------------

  datatype Panes = Panes(gridHidden: bool, trendingHidden: bool, notFoundHidden: bool, activity: bool)

  /**
   * The panes after a result arrives: no result shows the trending pane
   * alone; a result shows the grid, and updates the not-found placeholder
   * only once the result is final or has entries, hiding it exactly when
   * there are entries.
   */
  function ApplyResult(panes: Panes, entries: Option<seq<Entry>>, final: bool): (r: Panes)
    ensures entries.None? ==> r == Panes(true, false, true, false)
    ensures entries.Some? ==> !r.gridHidden && r.trendingHidden
    ensures entries.Some? && (final || |entries.value| > 0) ==> (r.notFoundHidden <==> |entries.value| > 0)
    ensures entries.Some? && !final && |entries.value| == 0 ==> r.notFoundHidden == panes.notFoundHidden
    ensures entries.Some? ==> r.activity == (if final then false else panes.activity)
  {
    match entries
    case None => Panes(true, false, true, false)
    case Some(es) =>
      var notFoundHidden := if final || |es| > 0 then |es| > 0 else panes.notFoundHidden;
      Panes(false, true, notFoundHidden, if final then false else panes.activity)
  }

  /** Empty text searches nothing and leaves the trending pane visible with the placeholder hidden. */
  lemma EmptyTextShowsTrending(panes: Panes, languageCode: Option<string>, isSingleEmoji: string -> bool,
                               characterCount: string -> nat)
    ensures RouteQuery("", languageCode, isSingleEmoji, characterCount) == NoSearch
    ensures var r := ApplyResult(panes, None, true); r.gridHidden && !r.trendingHidden && r.notFoundHidden && !r.activity
  {
  }
}
