/**
 * The hashtag suggestion panel of the chat input: the suggestion entries
 * built from the search results (first occurrence of each text kept,
 * consecutive indices), their identity and order, and the edit applied to
 * the input text when a suggestion is picked.
 *
 * Text is a sequence of UTF-16 code units, as `NSString` counts them. The
 * query ranges of the input are computed by a function outside this model;
 * they are a parameter here.
 */
module HashtagPanel {
  import opened Wrappers

  /** A presentation theme, compared by identity (`===`) in the source. */
  datatype ThemeRef = ThemeRef(identity: int)

  datatype Entry = Entry(index: int, theme: ThemeRef, text: string)

  /** `stableId`: the text. */
  function StableId(e: Entry): string {
    e.text
  }

  /** `==`: equal index, equal text and the identical theme. */
  predicate EntryEqual(lhs: Entry, rhs: Entry) {
    lhs.index == rhs.index && lhs.text == rhs.text && lhs.theme == rhs.theme
  }

  /** `<`: by index. */
  predicate EntryLess(lhs: Entry, rhs: Entry) {
    lhs.index < rhs.index
  }

  /** `withUpdatedTheme`: the same suggestion under another theme. */
  function WithUpdatedTheme(e: Entry, theme: ThemeRef): (r: Entry)
    ensures r.index == e.index && r.text == e.text && r.theme == theme
    ensures StableId(r) == StableId(e)
    ensures forall other :: EntryLess(r, other) == EntryLess(e, other)
  {
    Entry(e.index, theme, e.text)
  }

  // ---------------------------------------------------------------------
  // Results to entries
  // ---------------------------------------------------------------------

  /** The position of the first occurrence of `x` in `s`. */
  function FirstOccurrence(s: seq<string>, x: string): (r: nat)
    requires x in s
    ensures r < |s| && s[r] == x
    ensures forall k :: 0 <= k < r ==> s[k] != x
  {
    if s[0] == x then 0 else 1 + FirstOccurrence(s[1..], x)
  }

  /** The results with every repeated text dropped, scanning left to right. */
  function Dedup(s: seq<string>): seq<string> {
    if |s| == 0 then []
    else
      var d := Dedup(s[..|s| - 1]);
      if s[|s| - 1] in d then d else d + [s[|s| - 1]]
  }

  predicate Distinct(s: seq<string>) {
    forall i, j :: 0 <= i < j < |s| ==> s[i] != s[j]
  }

  /**
   * The deduplicated results hold each text of the results exactly once, in
   * the order of the texts' first occurrences.
   */
  lemma {:induction false} DedupKeepsFirstOccurrences(s: seq<string>)
    ensures forall x :: x in Dedup(s) <==> x in s
    ensures Distinct(Dedup(s))
    ensures forall i, j :: 0 <= i < j < |Dedup(s)| ==> FirstOccurrence(s, Dedup(s)[i]) < FirstOccurrence(s, Dedup(s)[j])
  {
    if |s| > 0 {
      var init := s[..|s| - 1];
      var x := s[|s| - 1];
      var d := Dedup(init);
      DedupKeepsFirstOccurrences(init);
      assert s == init + [x];
      assert forall y :: y in s <==> y in init || y == x;
      forall y | y in init
        ensures FirstOccurrence(s, y) == FirstOccurrence(init, y)
      {
        PrefixFirstOccurrence(init, x, y);
      }
      if x !in init {
        assert FirstOccurrence(s, x) == |s| - 1 by {
          assert forall k :: 0 <= k < |init| ==> s[k] == init[k];
        }
        forall i | 0 <= i < |d|
          ensures FirstOccurrence(s, d[i]) < |s| - 1
        {
          assert d[i] in init;
          assert FirstOccurrence(init, d[i]) < |init|;
        }
      }
    }
  }

  /** A text's first occurrence does not move when something is appended after it. */
  lemma PrefixFirstOccurrence(init: seq<string>, x: string, y: string)
    requires y in init
    ensures FirstOccurrence(init + [x], y) == FirstOccurrence(init, y)
  {
    var k := FirstOccurrence(init, y);
    var k' := FirstOccurrence(init + [x], y);
    assert (init + [x])[k] == y;
    assert forall j :: 0 <= j < |init| ==> (init + [x])[j] == init[j];
  }

  /** The entries of a list of distinct texts: index `i` for the `i`-th text. */
  function Entries(texts: seq<string>, theme: ThemeRef): (r: seq<Entry>)
    ensures |r| == |texts|
    ensures forall i :: 0 <= i < |r| ==> r[i] == Entry(i, theme, texts[i])
  {
    seq(|texts|, i requires 0 <= i < |texts| => Entry(i, theme, texts[i]))
  }

  /**
   * `updateResults`: a result is skipped when an entry with its stable id is
   * already present; otherwise it becomes the next entry.
   */
  method UpdateResults(results: seq<string>, theme: ThemeRef) returns (entries: seq<Entry>)
    ensures entries == Entries(Dedup(results), theme)
  {
    entries := [];
    var stableIds: set<string> := {};
    var index := 0;
    for i := 0 to |results|
      invariant entries == Entries(Dedup(results[..i]), theme)
      invariant stableIds == set e | e in entries :: StableId(e)
      invariant index == |entries|
    {
      var text := results[i];
      assert results[..i + 1][..i] == results[..i];
      var entry := Entry(index, theme, text);
      if StableId(entry) in stableIds {
        assert text in Dedup(results[..i]) by {
          var e :| e in entries && StableId(e) == text;
          var k :| 0 <= k < |entries| && entries[k] == e;
        }
        continue;
      }
      assert forall k :: 0 <= k < |entries| ==> entries[k] in entries;
      stableIds := stableIds + {StableId(entry)};
      entries := entries + [entry];
      index := index + 1;
    }
    assert results[..|results|] == results;
  }

  /**
   * The panel lists each result text once, at the position of its first
   * occurrence among the texts, with consecutive indices from 0 and
   * distinct stable ids.
   */
  lemma EntriesOfResults(results: seq<string>, theme: ThemeRef)
    ensures var r := Entries(Dedup(results), theme);
            && (forall x :: (exists i :: 0 <= i < |r| && r[i].text == x) <==> x in results)
            && (forall i :: 0 <= i < |r| ==> r[i].index == i)
            && (forall i, j :: 0 <= i < j < |r| ==>
                  EntryLess(r[i], r[j]) && StableId(r[i]) != StableId(r[j])
                  && FirstOccurrence(results, r[i].text) < FirstOccurrence(results, r[j].text))
  {
    DedupKeepsFirstOccurrences(results);
    var r := Entries(Dedup(results), theme);
    forall x | x in results
      ensures exists i :: 0 <= i < |r| && r[i].text == x
    {
      assert x in Dedup(results);
      var i :| 0 <= i < |Dedup(results)| && Dedup(results)[i] == x;
      assert r[i].text == x;
    }
  }

  // ---------------------------------------------------------------------
  // Picking a suggestion
  // ---------------------------------------------------------------------

  /** The kinds of context query a range of the input can hold. */
  datatype QueryKind = Emoji | Hashtag | Mention | Command | ContextRequest | EmojiSearch

  /** A half-open range of UTF-16 offsets. */
  datatype Range = Range(lowerBound: int, upperBound: int)

  datatype QueryRange = QueryRange(range: Range, kinds: set<QueryKind>)

  /** The input: its text and its selection. */
  datatype InputState = InputState(text: string, selection: Range)

  predicate RangeWithin(range: Range, text: string) {
    0 <= range.lowerBound <= range.upperBound <= |text|
  }

  /** The position of the first range whose kinds are exactly the hashtag query. */
  function FirstHashtagQuery(queries: seq<QueryRange>): (r: Option<nat>)
    ensures r.None? <==> forall i :: 0 <= i < |queries| ==> queries[i].kinds != {Hashtag}
    ensures r.Some? ==> r.value < |queries| && queries[r.value].kinds == {Hashtag}
    ensures r.Some? ==> forall k :: 0 <= k < r.value ==> queries[k].kinds != {Hashtag}
  {
    if |queries| == 0 then None
    else if queries[0].kinds == {Hashtag} then Some(0)
    else
      var r := FirstHashtagQuery(queries[1..]);
      assert forall i :: 1 <= i < |queries| ==> queries[i] == queries[1..][i - 1];
      if r.Some? then Some(r.value + 1) else None
  }

  /**
   * `hashtagSelected`: the first hashtag query range is replaced by the
   * hashtag and a space, and the caret is put after the space; without such
   * a range the input is left alone. The query ranges are ranges of the
   * input's text.
   */
  function HashtagSelected(state: InputState, queries: seq<QueryRange>, hashtag: string): (r: InputState)
    requires forall i :: 0 <= i < |queries| ==> RangeWithin(queries[i].range, state.text)
  {
    match FirstHashtagQuery(queries)
    case None => state
    case Some(i) =>
      var range := queries[i].range;
      assert RangeWithin(range, state.text);
      var replacement := hashtag + " ";
      var text := state.text[..range.lowerBound] + replacement + state.text[range.upperBound..];
      var caret := range.lowerBound + |replacement|;
      InputState(text, Range(caret, caret))
  }

  /**
   * Picking a hashtag keeps the text before and after the first hashtag
   * query, puts the hashtag and a space in its place, and collapses the
   * selection right after the space; with no hashtag query nothing changes.
   */
  lemma HashtagSelectedReplacesQuery(state: InputState, queries: seq<QueryRange>, hashtag: string)
    requires forall i :: 0 <= i < |queries| ==> RangeWithin(queries[i].range, state.text)
    ensures var r := HashtagSelected(state, queries, hashtag);
            match FirstHashtagQuery(queries)
            case None => r == state
            case Some(i) =>
              var range := queries[i].range;
              var lo := range.lowerBound;
              var caret := lo + |hashtag| + 1;
              && |r.text| == |state.text| - (range.upperBound - lo) + |hashtag| + 1
              && r.text[..lo] == state.text[..lo]
              && r.text[lo..caret] == hashtag + " "
              && r.text[caret..] == state.text[range.upperBound..]
              && r.selection == Range(caret, caret)
  {
    match FirstHashtagQuery(queries)
    case None =>
    case Some(i) =>
      var range := queries[i].range;
      var lo := range.lowerBound;
      var r := HashtagSelected(state, queries, hashtag);
      assert r.text == state.text[..lo] + (hashtag + " ") + state.text[range.upperBound..];
  }
}
