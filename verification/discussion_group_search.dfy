/**
 * Searching the groups that can be linked to a channel for discussion: the
 * token index built over the candidate groups, the prefix search with
 * de-duplication by peer id, the result entries with their indices, identity
 * and order, and the mapping from the search text to a query.
 *
 * Tokenising names and queries is not part of this model: each peer carries
 * its index tokens and the query's tokens are a parameter. The index is a
 * dictionary whose iteration order Swift leaves unspecified; it is a
 * parameter too, any enumeration of the index's keys.
 */
module DiscussionGroupSearch {
  import opened Wrappers
  import opened Text

  type PeerId = int

  /** An index token (a byte key in the source). */
  type Token = string

  /** A candidate group with the tokens of its name. */
  datatype Peer = Peer(id: PeerId, tokens: seq<Token>)

  type SearchIndex = map<Token, seq<Peer>>

  // ---------------------------------------------------------------------
  // Index
  // ---------------------------------------------------------------------

  /** Appends `p` to the list of `token`, creating the list when missing. */
  function AddToken(index: SearchIndex, token: Token, p: Peer): (r: SearchIndex)
    ensures r.Keys == index.Keys + {token}
    ensures r[token] == (if token in index then index[token] else []) + [p]
    ensures forall k :: k in index && k != token ==> r[k] == index[k]
  {
    index[token := (if token in index then index[token] else []) + [p]]
  }

  /** Adds `p` under each token of `tokens`, in order. */
  function AddTokens(index: SearchIndex, tokens: seq<Token>, p: Peer): (r: SearchIndex)
    ensures forall k :: k in r <==> k in index || k in tokens
    ensures forall k, q :: k in r ==> (q in r[k] <==> (k in index && q in index[k]) || (q == p && k in tokens))
    decreases |tokens|
  {
    if |tokens| == 0 then index
    else
      var next := AddToken(index, tokens[0], p);
      var r := AddTokens(next, tokens[1..], p);
      assert forall k :: k in tokens <==> k == tokens[0] || k in tokens[1..];
      r
  }

  /** The token index: every token of every peer maps to the peers holding it, in order. */
  function BuildIndex(peers: seq<Peer>): (r: SearchIndex)
    ensures forall k :: k in r <==> exists p :: p in peers && k in p.tokens
    ensures forall k, q :: k in r ==> (q in r[k] <==> q in peers && k in q.tokens)
  {
    if |peers| == 0 then map[]
    else
      var last := peers[|peers| - 1];
      var init := peers[..|peers| - 1];
      assert forall p :: p in peers <==> p in init || p == last;
      AddTokens(BuildIndex(init), last.tokens, last)
  }

  // ---------------------------------------------------------------------
  // Search
  // ---------------------------------------------------------------------

  /** Some query token is a prefix of `key`. */
  predicate Matches(queryTokens: seq<Token>, key: Token) {
    exists q :: q in queryTokens && IsPrefix(q, key)
  }

  function Ids(peers: seq<Peer>): set<PeerId> {
    set p | p in peers :: p.id
  }

  predicate DistinctIds(peers: seq<Peer>) {
    forall i, j :: 0 <= i < j < |peers| ==> peers[i].id != peers[j].id
  }

  /** Appending a peer whose id is new keeps the ids distinct. */
  lemma AppendNewId(acc: seq<Peer>, v: Peer)
    requires v.id !in Ids(acc)
    ensures DistinctIds(acc) ==> DistinctIds(acc + [v])
    ensures Ids(acc + [v]) == Ids(acc) + {v.id}
  {
    forall i | 0 <= i < |acc|
      ensures acc[i].id != v.id
    {
      assert acc[i] in acc;
    }
  }

  /** Appends the peers of `values` whose id is not yet present, in order. */
  function AddUnseen(acc: seq<Peer>, values: seq<Peer>): (r: seq<Peer>)
    ensures DistinctIds(acc) ==> DistinctIds(r)
    ensures Ids(r) == Ids(acc) + Ids(values)
    ensures forall p :: p in r ==> p in acc || p in values
    decreases |values|
  {
    if |values| == 0 then acc
    else
      var v := values[0];
      assert Ids(values) == {v.id} + Ids(values[1..]) by {
        assert forall p :: p in values <==> p == v || p in values[1..];
      }
      if v.id in Ids(acc) then AddUnseen(acc, values[1..])
      else
        AppendNewId(acc, v);
        AddUnseen(acc + [v], values[1..])
  }

  /**
   * The search loop: the keys in iteration order, each key matched by some
   * query token contributing its peers that were not found before.
   */
  function Collect(index: SearchIndex, keys: seq<Token>, queryTokens: seq<Token>, acc: seq<Peer>): (r: seq<Peer>)
    requires forall k :: k in keys ==> k in index
    ensures DistinctIds(acc) ==> DistinctIds(r)
    ensures forall id :: id in Ids(r) <==>
      id in Ids(acc) || exists k :: k in keys && Matches(queryTokens, k) && id in Ids(index[k])
    ensures forall p :: p in r ==> p in acc || exists k :: k in keys && Matches(queryTokens, k) && p in index[k]
  {
    if |keys| == 0 then acc
    else
      var k := keys[0];
      var acc' := if Matches(queryTokens, k) then AddUnseen(acc, index[k]) else acc;
      assert forall k' :: k' in keys <==> k' == k || k' in keys[1..];
      Collect(index, keys[1..], queryTokens, acc')
  }

  /** `keys` enumerates the dictionary: each of its keys exactly once. */
  predicate EnumeratesKeys(index: SearchIndex, keys: seq<Token>) {
    && (forall k :: k in keys ==> k in index)
    && (forall k :: k in index ==> k in keys)
    && (forall i, j :: 0 <= i < j < |keys| ==> keys[i] != keys[j])
  }

  /** The peers found for a query, over the index of `peers` enumerated as `keys`. */
  function FoundPeers(peers: seq<Peer>, keys: seq<Token>, queryTokens: seq<Token>): (r: seq<Peer>)
    requires EnumeratesKeys(BuildIndex(peers), keys)
    ensures DistinctIds(r)
  {
    Collect(BuildIndex(peers), keys, queryTokens, [])
  }

  /**
   * Only candidates are found, no peer id twice, and a peer's id is found iff
   * some query token is a prefix of one of its tokens.
   */
  lemma FoundPeersExactly(peers: seq<Peer>, keys: seq<Token>, queryTokens: seq<Token>, id: PeerId)
    requires EnumeratesKeys(BuildIndex(peers), keys)
    ensures forall p :: p in FoundPeers(peers, keys, queryTokens) ==> p in peers
    ensures DistinctIds(FoundPeers(peers, keys, queryTokens))
    ensures id in Ids(FoundPeers(peers, keys, queryTokens)) <==>
      exists p, t :: p in peers && t in p.tokens && p.id == id && Matches(queryTokens, t)
  {
    var index := BuildIndex(peers);
    var r := FoundPeers(peers, keys, queryTokens);
    if id in Ids(r) {
      var k :| k in keys && Matches(queryTokens, k) && id in Ids(index[k]);
      var p: Peer :| p in index[k] && p.id == id;
      assert p in peers && k in p.tokens;
    }
    if exists p, t :: p in peers && t in p.tokens && p.id == id && Matches(queryTokens, t) {
      var p, t :| p in peers && t in p.tokens && p.id == id && Matches(queryTokens, t);
      assert t in index && p in index[t];
      assert id in Ids(index[t]);
    }
  }

  // ---------------------------------------------------------------------
  // Entries
  // ---------------------------------------------------------------------

  datatype Entry = Entry(index: int, peer: Peer)

  /** The entries for the found peers, each indexed by the number of entries before it. */
  function Entries(found: seq<Peer>, start: int): (r: seq<Entry>)
    ensures |r| == |found|
    ensures forall i :: 0 <= i < |found| ==> r[i] == Entry(start + i, found[i])
  {
    if |found| == 0 then [] else [Entry(start, found[0])] + Entries(found[1..], start + 1)
  }

  /** `stableId`: the peer id. */
  function StableId(e: Entry): PeerId {
    e.peer.id
  }

  /** `==`: equal index and equal peer. */
  predicate EntryEqual(lhs: Entry, rhs: Entry) {
    lhs.index == rhs.index && lhs.peer == rhs.peer
  }

  /** `<`: by index. */
  predicate EntryLess(lhs: Entry, rhs: Entry) {
    lhs.index < rhs.index
  }

  /** Each entry's index is its position, so the entries are in order and their stable ids are distinct. */
  lemma EntriesIndexedAndDistinct(found: seq<Peer>)
    requires DistinctIds(found)
    ensures var r := Entries(found, 0);
            && (forall i :: 0 <= i < |r| ==> r[i].index == i)
            && (forall i, j :: 0 <= i < j < |r| ==> EntryLess(r[i], r[j]) && StableId(r[i]) != StableId(r[j]))
            && (forall i, j :: 0 <= i < |r| && 0 <= j < |r| ==> (EntryEqual(r[i], r[j]) <==> i == j))
  {
  }

  // ---------------------------------------------------------------------
  // Query
  // ---------------------------------------------------------------------

  /** `searchTextUpdated`: empty text clears the query. */
  function QueryForText(text: string): (r: Option<string>)
    ensures r.None? <==> text == ""
    ensures r.Some? ==> r.value == text
  {
    if text == "" then None else Some(text)
  }

  /**
   * The found entries for a query: nothing for a missing or empty query;
   * otherwise the found peers of the lower-cased query's tokens, as entries.
   */
  function SearchEntries(peers: seq<Peer>, keys: seq<Token>, query: Option<string>, tokensOf: string -> seq<Token>)
    : (r: Option<seq<Entry>>)
    requires EnumeratesKeys(BuildIndex(peers), keys)
    ensures r.None? <==> query.None? || query.value == ""
    ensures r.Some? ==> r.value == Entries(FoundPeers(peers, keys, tokensOf(Lower(query.value))), 0)
  {
    match query
    case None => None
    case Some(q) =>
      if q == "" then None
      else Some(Entries(FoundPeers(peers, keys, tokensOf(Lower(q))), 0))
  }

  /** Clearing the search text yields no entries. */
  lemma EmptyTextHasNoEntries(peers: seq<Peer>, keys: seq<Token>, tokensOf: string -> seq<Token>)
    requires EnumeratesKeys(BuildIndex(peers), keys)
    ensures SearchEntries(peers, keys, QueryForText(""), tokensOf).None?
  {
  }
}
