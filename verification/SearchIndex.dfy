// apps/web/lib/local-search-index.ts: the in-memory inverted index.
module SearchOrder {

  /** String comparison `a < b`, by code unit. */
  predicate Less(a: string, b: string) {
    b != [] && (a == [] || a[0] < b[0] || (a[0] == b[0] && Less(a[1..], b[1..])))
  }

  lemma {:induction false} LessTotal(a: string, b: string)
    ensures Less(a, b) || a == b || Less(b, a)
    ensures !(Less(a, b) && Less(b, a))
    ensures !Less(a, a)
  {
    if a != [] {
      LessTotal(a[1..], a[1..]);
      if b != [] && a[0] == b[0] {
        LessTotal(a[1..], b[1..]);
        if a[1..] == b[1..] {
          assert a == [a[0]] + a[1..] && b == [b[0]] + b[1..];
        }
      }
    }
  }

  lemma {:induction false} LessTransitive(a: string, b: string, c: string)
    requires Less(a, b) && Less(b, c)
    ensures Less(a, c)
  {
    if a != [] && a[0] == b[0] == c[0] {
      LessTransitive(a[1..], b[1..], c[1..]);
    }
  }

  /** The first difference decides, the smaller code unit first; a proper prefix comes before what it is a prefix of. */
  lemma {:induction false} FirstDifferenceDecides(p: string, a: string, b: string)
    ensures a != [] && b != [] && a[0] != b[0] ==> (Less(p + a, p + b) <==> a[0] < b[0])
    ensures Less(p, p + b) <==> b != []
    ensures !Less(p + b, p)
  {
    if p == [] {
      assert p + a == a && p + b == b;
    } else {
      FirstDifferenceDecides(p[1..], a, b);
      assert (p + a)[1..] == p[1..] + a && (p + b)[1..] == p[1..] + b;
    }
  }

  /** `a` is not newer than `b`: the complement of `Less(b, a)`, transitive like it. */
  lemma NotLessTransitive(a: string, b: string, c: string)
    requires !Less(b, a) && !Less(c, b)
    ensures !Less(c, a)
  {
  }
}

module SearchIndex {
  import opened Common
  import opened SearchOrder

  const MAX_DOCS_PER_CHANNEL: nat := 2000
  const MAX_DOCS_GLOBAL: nat := 10000

  datatype Document = Document(id: string, channelId: string, authorId: string, text: string, createdAt: string)

  /** An empty string stands for an absent filter, which the source treats alike. */
  datatype Filters = Filters(fromAuthorId: string, before: string)

  datatype SearchResult = SearchResult(doc: Document, score: real, matchedTokens: seq<string>)

  type Store = map<string, Document>
  type Tokeniser = string -> seq<string>

  // ---- The meaning of a document store -------------------------------------

  ghost predicate Keyed(docs: Store) {
    forall id :: id in docs ==> docs[id].id == id
  }

  function InChannel(docs: Store, c: string): set<string> {
    set id | id in docs && docs[id].channelId == c
  }

  ghost predicate WithinCaps(docs: Store) {
    && |docs| <= MAX_DOCS_GLOBAL
    && forall c :: |InChannel(docs, c)| <= MAX_DOCS_PER_CHANNEL
  }

  predicate HasToken(tok: Tokeniser, doc: Document, t: string) {
    t in tok(doc.text)
  }

  /** `v` is one of `ids` and none of them is strictly older. */
  ghost predicate IsOldest(docs: Store, ids: set<string>, v: string)
    requires ids <= docs.Keys
  {
    v in ids && forall id :: id in ids ==> !Less(docs[id].createdAt, docs[v].createdAt)
  }

  /** What making room for one document may do: nothing below the cap, else drop an oldest one. */
  ghost predicate Evicts(docs: Store, ids: set<string>, cap: nat, after: Store)
    requires ids <= docs.Keys
  {
    if |ids| < cap then after == docs
    else exists v :: IsOldest(docs, ids, v) && after == docs - {v}
  }

  /** addDocument as a relation: replace, make room in the channel, make room overall, insert. */
  ghost predicate Adds(docs: Store, doc: Document, after: Store) {
    exists mid: Store, roomy: Store ::
      && Evicts(docs - {doc.id}, InChannel(docs - {doc.id}, doc.channelId), MAX_DOCS_PER_CHANNEL, mid)
      && Evicts(mid, mid.Keys, MAX_DOCS_GLOBAL, roomy)
      && after == roomy[doc.id := doc]
  }

  // ---- The meaning of a search ---------------------------------------------

  ghost predicate SomeDocHas(docs: Store, tok: Tokeniser, t: string) {
    exists id :: id in docs && HasToken(tok, docs[id], t)
  }

  /** A query token is met exactly when any indexed document contains it, and by prefix otherwise. */
  ghost predicate MeetsToken(docs: Store, tok: Tokeniser, doc: Document, t: string) {
    if SomeDocHas(docs, tok, t) then HasToken(tok, doc, t)
    else exists k :: 0 <= k < |tok(doc.text)| && t <= tok(doc.text)[k]
  }

  predicate PassesFilters(doc: Document, channelId: string, filters: Filters) {
    && (channelId == "" || doc.channelId == channelId)
    && (filters.fromAuthorId == "" || doc.authorId == filters.fromAuthorId)
    && (filters.before == "" || Less(doc.createdAt, filters.before))
  }

  ghost predicate Matches(docs: Store, tok: Tokeniser, tokens: seq<string>, channelId: string, filters: Filters,
                          id: string)
  {
    && id in docs
    && PassesFilters(docs[id], channelId, filters)
    && forall t :: t in tokens ==> MeetsToken(docs, tok, docs[id], t)
  }

  /** The sort comparator: higher score first, then newer first. */
  predicate Before(a: SearchResult, b: SearchResult) {
    a.score > b.score || (a.score == b.score && !Less(a.doc.createdAt, b.doc.createdAt))
  }

  ghost predicate Ranked(rs: seq<SearchResult>) {
    forall i, j :: 0 <= i < j < |rs| ==> Before(rs[i], rs[j])
  }

  function Scored(doc: Document, tokens: seq<string>, recency: string -> real): SearchResult {
    SearchResult(doc, (|tokens| * 10) as real + recency(doc.createdAt), tokens)
  }

  /** What a plain scan of the documents finds. */
  ghost function Hits(docs: Store, tok: Tokeniser, recency: string -> real,
                      tokens: seq<string>, channelId: string, filters: Filters): set<SearchResult>
  {
    set id | id in docs && Matches(docs, tok, tokens, channelId, filters, id) :: Scored(docs[id], tokens, recency)
  }

  /** `all` is the complete ranked scan: every matching document once, nothing else, best first. */
  ghost predicate IsScan(all: seq<SearchResult>, docs: Store, tok: Tokeniser, recency: string -> real,
                         tokens: seq<string>, channelId: string, filters: Filters)
  {
    && Ranked(all)
    && multiset(all) == multiset(Hits(docs, tok, recency, tokens, channelId, filters))
  }

  ghost function HitsAmong(docs: Store, ids: set<string>, recency: string -> real,
                           tokens: seq<string>, channelId: string, filters: Filters): set<SearchResult>
  {
    set id | id in ids && id in docs && PassesFilters(docs[id], channelId, filters) :: Scored(docs[id], tokens, recency)
  }

  /** A stored document with that scope, author and bound, and how far it meets the query. */
  lemma ScanFindsOnly(all: seq<SearchResult>, docs: Store, tok: Tokeniser, recency: string -> real,
                      tokens: seq<string>, channelId: string, filters: Filters, r: SearchResult)
    requires IsScan(all, docs, tok, recency, tokens, channelId, filters) && Keyed(docs) && r in all
    ensures r.doc.id in docs && docs[r.doc.id] == r.doc
    ensures channelId != "" ==> r.doc.channelId == channelId
    ensures filters.fromAuthorId != "" ==> r.doc.authorId == filters.fromAuthorId
    ensures filters.before != "" ==> Less(r.doc.createdAt, filters.before)
    ensures r.matchedTokens == tokens && r.score == (10 * |tokens|) as real + recency(r.doc.createdAt)
    ensures forall t :: t in tokens ==> exists k :: 0 <= k < |tok(r.doc.text)| && t <= tok(r.doc.text)[k]
    ensures forall t, id :: t in tokens && id in docs && t in tok(docs[id].text) ==> t in tok(r.doc.text)
  {
    assert r in multiset(all);
    assert r in Hits(docs, tok, recency, tokens, channelId, filters);
    assert Matches(docs, tok, tokens, channelId, filters, r.doc.id);
    forall t | t in tokens
      ensures exists k :: 0 <= k < |tok(r.doc.text)| && t <= tok(r.doc.text)[k]
      ensures forall id :: id in docs && t in tok(docs[id].text) ==> t in tok(r.doc.text)
    {
      assert MeetsToken(docs, tok, r.doc, t);
      if HasToken(tok, r.doc, t) {
        var k :| 0 <= k < |tok(r.doc.text)| && tok(r.doc.text)[k] == t;
        assert t <= tok(r.doc.text)[k];
      }
      forall id | id in docs && t in tok(docs[id].text) ensures t in tok(r.doc.text) {
        assert HasToken(tok, docs[id], t);
        assert SomeDocHas(docs, tok, t);
      }
    }
  }

  /** The document contains the query token, or no stored document does and one of its tokens starts with it. */
  ghost predicate Finds(docs: Store, tok: Tokeniser, doc: Document, t: string) {
    || t in tok(doc.text)
    || ((exists k :: 0 <= k < |tok(doc.text)| && t <= tok(doc.text)[k])
        && forall id :: id in docs ==> t !in tok(docs[id].text))
  }

  /** Nothing that is asked for is missed, and nothing is listed twice. */
  lemma ScanFindsAll(all: seq<SearchResult>, docs: Store, tok: Tokeniser, recency: string -> real,
                     tokens: seq<string>, channelId: string, filters: Filters, id: string)
    requires IsScan(all, docs, tok, recency, tokens, channelId, filters) && Keyed(docs) && id in docs
    requires channelId != "" ==> docs[id].channelId == channelId
    requires filters.fromAuthorId != "" ==> docs[id].authorId == filters.fromAuthorId
    requires filters.before != "" ==> Less(docs[id].createdAt, filters.before)
    requires forall t :: t in tokens ==> Finds(docs, tok, docs[id], t)
    ensures exists i :: 0 <= i < |all| && all[i].doc == docs[id]
    ensures forall i, j :: 0 <= i < j < |all| ==> all[i].doc != all[j].doc
  {
    forall t | t in tokens ensures MeetsToken(docs, tok, docs[id], t) {
      assert Finds(docs, tok, docs[id], t);
      if t in tok(docs[id].text) {
        assert HasToken(tok, docs[id], t);
      }
    }
    assert Matches(docs, tok, tokens, channelId, filters, id);
    var hit := Scored(docs[id], tokens, recency);
    assert hit in Hits(docs, tok, recency, tokens, channelId, filters);
    assert hit in multiset(all);
    OncePerDocument(all, docs, tok, recency, tokens, channelId, filters);
  }

  lemma ListedOnce<T>(s: seq<T>, elements: set<T>)
    requires multiset(s) == multiset(elements)
    ensures NoDuplicates(s)
  {
    forall i, j | 0 <= i < j < |s| ensures s[i] != s[j] {
      assert s == s[..j] + [s[j]] + s[j + 1..];
      assert multiset(s)[s[j]] <= 1;
      assert s[i] in s[..j];
    }
  }

  lemma OncePerDocument(all: seq<SearchResult>, docs: Store, tok: Tokeniser, recency: string -> real,
                        tokens: seq<string>, channelId: string, filters: Filters)
    requires IsScan(all, docs, tok, recency, tokens, channelId, filters)
    ensures forall i, j :: 0 <= i < j < |all| ==> all[i].doc != all[j].doc
  {
    ListedOnce(all, Hits(docs, tok, recency, tokens, channelId, filters));
    forall r | r in all ensures r == Scored(r.doc, tokens, recency) {
      assert r in multiset(all);
    }
  }

  /** Newer documents never score less for their age. */
  ghost predicate FavoursNew(recency: string -> real) {
    forall a, b :: Less(a, b) ==> recency(a) <= recency(b)
  }

  /** Then the newest document comes first. */
  lemma ScanIsNewestFirst(all: seq<SearchResult>, docs: Store, tok: Tokeniser, recency: string -> real,
                          tokens: seq<string>, channelId: string, filters: Filters)
    requires IsScan(all, docs, tok, recency, tokens, channelId, filters) && FavoursNew(recency)
    ensures forall i, j :: 0 <= i < j < |all| ==> !Less(all[i].doc.createdAt, all[j].doc.createdAt)
  {
    forall i, j | 0 <= i < j < |all| ensures !Less(all[i].doc.createdAt, all[j].doc.createdAt) {
      assert all[i] in multiset(all) && all[j] in multiset(all);
      assert Before(all[i], all[j]);
    }
  }

  lemma HitsAmongStep(docs: Store, ids: set<string>, id: string, recency: string -> real,
                      tokens: seq<string>, channelId: string, filters: Filters)
    requires Keyed(docs) && id in docs && id !in ids
    ensures multiset(HitsAmong(docs, ids + {id}, recency, tokens, channelId, filters))
         == multiset(HitsAmong(docs, ids, recency, tokens, channelId, filters))
          + if PassesFilters(docs[id], channelId, filters) then multiset{Scored(docs[id], tokens, recency)}
            else multiset{}
  {
  }

  lemma HitsAmongCandidates(docs: Store, ids: set<string>, tok: Tokeniser, recency: string -> real,
                            tokens: seq<string>, channelId: string, filters: Filters)
    requires forall id :: id in ids <==>
        && id in docs
        && (tokens == [] && channelId != "" ==> docs[id].channelId == channelId)
        && forall t :: t in tokens ==> MeetsToken(docs, tok, docs[id], t)
    ensures HitsAmong(docs, ids, recency, tokens, channelId, filters)
         == Hits(docs, tok, recency, tokens, channelId, filters)
  {
  }

  lemma BeforeTransitive(a: SearchResult, b: SearchResult, c: SearchResult)
    requires Before(a, b) && Before(b, c)
    ensures Before(a, c)
  {
    if a.score == b.score == c.score {
      NotLessTransitive(c.doc.createdAt, b.doc.createdAt, a.doc.createdAt);
    }
  }

  lemma RankedCons(x: SearchResult, s: seq<SearchResult>)
    requires Ranked(s) && forall y :: y in s ==> Before(x, y)
    ensures Ranked([x] + s)
  {
  }

  lemma {:induction false} BeforeAll(x: SearchResult, s: seq<SearchResult>)
    requires s != [] && Ranked(s) && Before(x, s[0])
    ensures forall y :: y in s ==> Before(x, y)
  {
    forall y | y in s ensures Before(x, y) {
      if y != s[0] {
        BeforeTransitive(x, s[0], y);
      }
    }
  }

  function InsertRanked(x: SearchResult, s: seq<SearchResult>): (r: seq<SearchResult>)
    requires Ranked(s)
    ensures multiset(r) == multiset(s) + multiset{x}
    ensures forall y :: y in r <==> y == x || y in s
    ensures Ranked(r)
  {
    if s == [] then [x]
    else if Before(x, s[0]) then
      BeforeAll(x, s);
      RankedCons(x, s);
      [x] + s
    else
      assert s == [s[0]] + s[1..];
      LessTotal(x.doc.createdAt, s[0].doc.createdAt);
      RankedCons(s[0], InsertRanked(x, s[1..]));
      [s[0]] + InsertRanked(x, s[1..])
  }

  /** The library sort, with the source's comparator. */
  function SortRanked(s: seq<SearchResult>): (r: seq<SearchResult>)
    ensures multiset(r) == multiset(s) && Ranked(r)
  {
    if s == [] then []
    else
      assert s == [s[0]] + s[1..];
      InsertRanked(s[0], SortRanked(s[1..]))
  }

  /** The query tokens some document token starts with, as the scoring loop filters them. */
  function MatchedTokens(tokens: seq<string>, docTokens: seq<string>): seq<string> {
    Filter(tokens, (t: string) => exists k :: 0 <= k < |docTokens| && t <= docTokens[k])
  }

  lemma {:induction false} AllTokensMatched(docs: Store, tok: Tokeniser, doc: Document, tokens: seq<string>)
    requires forall t :: t in tokens ==> MeetsToken(docs, tok, doc, t)
    ensures MatchedTokens(tokens, tok(doc.text)) == tokens
  {
    if tokens != [] {
      var dts := tok(doc.text);
      assert MeetsToken(docs, tok, doc, tokens[0]);
      if HasToken(tok, doc, tokens[0]) {
        var k :| 0 <= k < |dts| && dts[k] == tokens[0];
        assert tokens[0] <= dts[k];
      }
      AllTokensMatched(docs, tok, doc, tokens[1..]);
    }
  }

  lemma {:induction false} MinusOneMore(docs: Store, ids: set<string>, rest: set<string>, id: string)
    requires id in rest && rest <= ids
    ensures docs - (ids - rest) - {id} == docs - (ids - (rest - {id}))
  {
    assert ids - rest + {id} == ids - (rest - {id});
  }

  /** The end index of JavaScript's `slice(0, limit)`. */
  function SliceEnd(n: nat, limit: int): (e: nat)
    ensures e <= n
  {
    if limit >= 0 then (if limit < n then limit else n)
    else if n + limit > 0 then n + limit else 0
  }

  // ---- Postings and channel sets as relations --------------------------------

  predicate Posted(sets: map<string, set<string>>, key: string, id: string) {
    key in sets && id in sets[key]
  }

  /** `sets.get(key).add(id)`, creating the set when it is missing. */
  function PutIn(sets: map<string, set<string>>, key: string, id: string): (r: map<string, set<string>>)
    ensures forall k, x :: Posted(r, k, x) <==> Posted(sets, k, x) || (k == key && x == id)
  {
    if key in sets then sets[key := sets[key] + {id}] else sets[key := {id}]
  }

  /** `sets.get(key)?.delete(id)`: the key stays, even with an empty set. */
  function DeleteFrom(sets: map<string, set<string>>, key: string, id: string): (r: map<string, set<string>>)
    ensures r.Keys == sets.Keys
    ensures forall k, x :: Posted(r, k, x) <==> Posted(sets, k, x) && !(k == key && x == id)
  {
    if key in sets then sets[key := sets[key] - {id}] else sets
  }

  predicate Carries(docs: Store, tok: Tokeniser, t: string, id: string) {
    id in docs && HasToken(tok, docs[id], t)
  }

  predicate Lives(docs: Store, c: string, id: string) {
    id in docs && docs[id].channelId == c
  }

  /** The three maps agree and no posting set is empty. */
  ghost predicate Coherent(
      inverted: map<string, set<string>>, docs: Store, channelDocs: map<string, set<string>>, tok: Tokeniser)
  {
    && Keyed(docs)
    && (forall t :: t in inverted ==> inverted[t] != {})
    && (forall t, id :: Posted(inverted, t, id) <==> Carries(docs, tok, t, id))
    && (forall c, id :: Posted(channelDocs, c, id) <==> Lives(docs, c, id))
  }

  lemma ChannelSet(channelDocs: map<string, set<string>>, docs: Store, c: string)
    requires forall c, id :: Posted(channelDocs, c, id) <==> Lives(docs, c, id)
    ensures InChannel(docs, c) == if c in channelDocs then channelDocs[c] else {}
  {
    forall id ensures id in InChannel(docs, c) <==> Posted(channelDocs, c, id) {
      assert Posted(channelDocs, c, id) <==> Lives(docs, c, id);
    }
  }

  lemma {:induction false} EmptyChannelGoes(
      inverted: map<string, set<string>>, docs: Store, channelDocs: map<string, set<string>>, tok: Tokeniser, c: string)
    requires Coherent(inverted, docs, channelDocs, tok) && forall id :: !Lives(docs, c, id)
    ensures Coherent(inverted, docs, channelDocs - {c}, tok)
  {
    forall d, id ensures Posted(channelDocs - {c}, d, id) <==> Lives(docs, d, id) {
      assert Posted(channelDocs, d, id) <==> Lives(docs, d, id);
    }
  }

  class LocalSearchIndex {
    const tok: Tokeniser
    const recency: string -> real
    var inverted: map<string, set<string>>
    var docs: Store
    var channelDocs: map<string, set<string>>

    ghost predicate Valid()
      reads this
    {
      Coherent(inverted, docs, channelDocs, tok)
    }

    constructor (tok: Tokeniser, recency: string -> real)
      ensures Valid() && docs == map[] && this.tok == tok && this.recency == recency
      ensures WithinCaps(docs)
    {
      this.tok, this.recency := tok, recency;
      inverted, docs, channelDocs := map[], map[], map[];
      new;
      assert forall c :: InChannel(docs, c) == {};
    }

    /** Takes the document out of the postings of its tokens; a set left empty goes. */
    method Unpost(id: string)
      requires Valid() && id in docs
      modifies this`inverted
      ensures forall t :: t in inverted ==> inverted[t] != {}
      ensures forall t, x :: Posted(inverted, t, x) <==> Carries(docs, tok, t, x) && x != id
    {
      var tokens := tok(docs[id].text);
      for i := 0 to |tokens|
        invariant forall t :: t in inverted ==> inverted[t] != {}
        invariant forall t, x :: Posted(inverted, t, x) <==> Carries(docs, tok, t, x) && !(x == id && t in tokens[..i])
      {
        var token := tokens[i];
        inverted := DeleteFrom(inverted, token, id);
        if token in inverted && inverted[token] == {} {
          ghost var held := inverted;
          inverted := inverted - {token};
          assert forall t, x :: Posted(inverted, t, x) <==> Posted(held, t, x);
        }
        assert tokens[..i + 1] == tokens[..i] + [token];
      }
      assert tokens[..|tokens|] == tokens;
    }

    method RemoveDocument(id: string)
      requires Valid()
      modifies this
      ensures Valid() && docs == old(docs) - {id}
      ensures channelDocs.Keys == old(channelDocs.Keys)
      ensures WithinCaps(old(docs)) ==> WithinCaps(docs)
    {
      if id !in docs { return; }
      Unpost(id);
      channelDocs := DeleteFrom(channelDocs, docs[id].channelId, id);
      docs := docs - {id};
      if WithinCaps(old(docs)) {
        RemovalKeepsCaps(old(docs), {id});
      }
    }

    /** Picks the eviction victim as the source's loop does, over an arbitrary iteration order. */
    method OldestOf(ids: set<string>) returns (oldest: string)
      requires ids <= docs.Keys
      ensures oldest == "" || oldest in ids
      ensures "" !in ids && ids != {} ==> IsOldest(docs, ids, oldest)
    {
      oldest := "";
      var oldestTs := "";
      var rest := ids;
      while rest != {}
        invariant rest <= ids
        invariant oldest == "" || (oldest in ids - rest && oldestTs == docs[oldest].createdAt)
        invariant "" !in ids && rest != ids ==> oldest != "" && IsOldest(docs, ids - rest, oldest)
        decreases |rest|
      {
        var id :| id in rest;
        var ts := docs[id].createdAt;
        LessTotal(ts, ts);
        if oldest == "" || Less(ts, oldestTs) {
          if oldest != "" && IsOldest(docs, ids - rest, oldest) {
            forall x | x in ids - rest ensures !Less(docs[x].createdAt, ts) {
              LessTotal(ts, oldestTs);
              NotLessTransitive(ts, oldestTs, docs[x].createdAt);
            }
          }
          oldest, oldestTs := id, ts;
        }
        rest := rest - {id};
      }
      assert ids - {} == ids;
    }

    method EnforceChannelCap(channelId: string)
      requires Valid()
      modifies this
      ensures Valid() && channelDocs.Keys == old(channelDocs.Keys)
      ensures "" !in old(docs) ==> Evicts(old(docs), InChannel(old(docs), channelId), MAX_DOCS_PER_CHANNEL, docs)
      ensures docs.Keys <= old(docs.Keys)
    {
      ChannelSet(channelDocs, docs, channelId);
      if channelId !in channelDocs || |channelDocs[channelId]| < MAX_DOCS_PER_CHANNEL { return; }
      var oldest := OldestOf(channelDocs[channelId]);
      if oldest != "" {
        RemoveDocument(oldest);
      }
    }

    method EnforceGlobalCap()
      requires Valid()
      modifies this
      ensures Valid() && channelDocs.Keys == old(channelDocs.Keys)
      ensures "" !in old(docs) ==> Evicts(old(docs), old(docs).Keys, MAX_DOCS_GLOBAL, docs)
      ensures docs.Keys <= old(docs.Keys)
    {
      if |docs| < MAX_DOCS_GLOBAL { return; }
      var oldest := OldestOf(docs.Keys);
      if oldest != "" {
        RemoveDocument(oldest);
      }
    }

    /** The storing half of addDocument: doc store, channel membership, postings. */
    method Insert(doc: Document)
      requires Valid() && doc.id !in docs
      modifies this
      ensures Valid() && docs == old(docs)[doc.id := doc]
    {
      docs := docs[doc.id := doc];
      channelDocs := PutIn(channelDocs, doc.channelId, doc.id);
      var tokens := tok(doc.text);
      for i := 0 to |tokens|
        invariant docs == old(docs)[doc.id := doc] && channelDocs == PutIn(old(channelDocs), doc.channelId, doc.id)
        invariant forall t :: t in inverted ==> inverted[t] != {}
        invariant forall t, x ::
            Posted(inverted, t, x) <==> Carries(old(docs), tok, t, x) || (x == doc.id && t in tokens[..i])
      {
        inverted := PutIn(inverted, tokens[i], doc.id);
        assert tokens[..i + 1] == tokens[..i] + [tokens[i]];
      }
      assert tokens[..|tokens|] == tokens;
    }

    method AddDocument(doc: Document)
      requires Valid()
      modifies this
      ensures Valid() && doc.id in docs && docs[doc.id] == doc
      ensures "" !in old(docs) ==> Adds(old(docs), doc, docs)
      ensures "" !in old(docs) && WithinCaps(old(docs)) ==> WithinCaps(docs)
      ensures docs.Keys <= old(docs.Keys) + {doc.id}
    {
      if doc.id in docs {
        RemoveDocument(doc.id);
      }
      assert docs == old(docs) - {doc.id};
      EnforceChannelCap(doc.channelId);
      ghost var mid := docs;
      EnforceGlobalCap();
      ghost var roomy := docs;
      Insert(doc);
      if "" !in old(docs) && WithinCaps(old(docs)) {
        AddsKeepsCaps(old(docs), doc, docs);
      }
    }

    method AddDocuments(page: seq<Document>)
      requires Valid()
      modifies this
      ensures Valid()
      ensures "" !in old(docs) && HaveIds(page) ==>
          "" !in docs && AddsAll(old(docs), page, docs) && (WithinCaps(old(docs)) ==> WithinCaps(docs))
    {
      for i := 0 to |page|
        invariant Valid()
        invariant "" !in old(docs) && HaveIds(page) ==>
            "" !in docs && AddsAll(old(docs), page[..i], docs)
      {
        ghost var was := docs;
        AddDocument(page[i]);
        assert Front(page[..i + 1]) == page[..i] && page[..i + 1][i] == page[i];
      }
      assert page[..|page|] == page;
      if WithinCaps(old(docs)) && AddsAll(old(docs), page, docs) {
        AddsAllKeepsCaps(old(docs), page, docs);
      }
    }

    method ClearChannel(channelId: string)
      requires Valid()
      modifies this
      ensures Valid() && docs == old(docs) - InChannel(old(docs), channelId) && channelId !in channelDocs
      ensures WithinCaps(old(docs)) ==> WithinCaps(docs)
    {
      ChannelSet(channelDocs, docs, channelId);
      if channelId !in channelDocs { return; }
      RemoveEach(channelDocs[channelId]);
      EmptyChannelGoes(inverted, docs, channelDocs, tok, channelId);
      channelDocs := channelDocs - {channelId};
      if WithinCaps(old(docs)) {
        RemovalKeepsCaps(old(docs), InChannel(old(docs), channelId));
      }
    }

    /** The loop of clearChannel, over a copy of the channel's ids. */
    method RemoveEach(ids: set<string>)
      requires Valid()
      modifies this
      ensures Valid() && docs == old(docs) - ids && channelDocs.Keys == old(channelDocs.Keys)
    {
      var rest := ids;
      while rest != {}
        invariant Valid() && rest <= ids && docs == old(docs) - (ids - rest)
        invariant channelDocs.Keys == old(channelDocs.Keys)
        decreases |rest|
      {
        var id :| id in rest;
        MinusOneMore(old(docs), ids, rest, id);
        RemoveDocument(id);
        rest := rest - {id};
      }
      assert ids - rest == ids;
    }

    /** The posting set one query token selects: exact if indexed, else every token it is a prefix of. */
    method Postings(token: string) returns (ids: set<string>)
      requires Valid()
      ensures forall id :: id in ids <==> id in docs && MeetsToken(docs, tok, docs[id], token)
    {
      if token in inverted {
        ids := inverted[token];
        var witnessId :| witnessId in ids;
        assert Posted(inverted, token, witnessId);
        assert SomeDocHas(docs, tok, token);
        assert forall id :: id in ids <==> Posted(inverted, token, id);
        return;
      }
      assert !SomeDocHas(docs, tok, token) by {
        forall id | id in docs ensures !HasToken(tok, docs[id], token) {
          assert Carries(docs, tok, token, id) <==> Posted(inverted, token, id);
        }
      }
      ids := {};
      var rest := inverted.Keys;
      while rest != {}
        invariant rest <= inverted.Keys
        invariant forall id :: id in ids <==>
            exists t :: t in inverted.Keys - rest && token <= t && Posted(inverted, t, id)
        decreases |rest|
      {
        var indexed :| indexed in rest;
        if token <= indexed {
          assert forall id :: id in inverted[indexed] <==> Posted(inverted, indexed, id);
          ids := ids + inverted[indexed];
        }
        rest := rest - {indexed};
      }
      forall id ensures id in ids <==> id in docs && MeetsToken(docs, tok, docs[id], token) {
        if id in ids {
          var t :| t in inverted.Keys && token <= t && Posted(inverted, t, id);
          assert Carries(docs, tok, t, id);
        }
        if id in docs && MeetsToken(docs, tok, docs[id], token) {
          var k :| 0 <= k < |tok(docs[id].text)| && token <= tok(docs[id].text)[k];
          assert Carries(docs, tok, tok(docs[id].text)[k], id);
          assert Posted(inverted, tok(docs[id].text)[k], id);
        }
      }
    }

    /** The candidate set: all in scope when the query is empty, else the intersected postings. */
    method Candidates(tokens: seq<string>, channelId: string) returns (ids: set<string>)
      requires Valid()
      ensures forall id :: id in ids <==>
          && id in docs
          && (tokens == [] && channelId != "" ==> docs[id].channelId == channelId)
          && forall t :: t in tokens ==> MeetsToken(docs, tok, docs[id], t)
    {
      if tokens == [] {
        if channelId != "" {
          ChannelSet(channelDocs, docs, channelId);
          ids := if channelId in channelDocs then channelDocs[channelId] else {};
          assert ids == InChannel(docs, channelId);
        } else {
          ids := docs.Keys;
        }
        return;
      }
      var candidates: Option<set<string>> := None;
      for i := 0 to |tokens|
        invariant candidates.None? <==> i == 0
        invariant candidates.Some? ==> forall id :: id in candidates.value <==>
            id in docs && forall t :: t in tokens[..i] ==> MeetsToken(docs, tok, docs[id], t)
      {
        var postings := Postings(tokens[i]);
        var kept := if candidates.None? then postings else candidates.value * postings;
        candidates := Some(kept);
        assert tokens[..i + 1] == tokens[..i] + [tokens[i]];
        if kept == {} {
          assert forall t :: t in tokens[..i + 1] ==> t in tokens;
          return kept;
        }
      }
      assert tokens[..|tokens|] == tokens;
      ids := candidates.value;
    }

    method Score(doc: Document, tokens: seq<string>) returns (r: SearchResult)
      requires forall t :: t in tokens ==> MeetsToken(docs, tok, doc, t)
      ensures r == Scored(doc, tokens, recency)
    {
      AllTokensMatched(docs, tok, doc, tokens);
      var matched := MatchedTokens(tokens, tok(doc.text));
      r := SearchResult(doc, (|matched| * 10) as real + recency(doc.createdAt), matched);
    }

    /** The scoring loop: filters each candidate and scores what passes. */
    method Collect(candidates: set<string>, tokens: seq<string>, channelId: string, filters: Filters)
      returns (results: seq<SearchResult>)
      requires Keyed(docs)
      requires forall id :: id in candidates ==>
          id in docs && forall t :: t in tokens ==> MeetsToken(docs, tok, docs[id], t)
      ensures multiset(results) == multiset(HitsAmong(docs, candidates, recency, tokens, channelId, filters))
    {
      var rest := candidates;
      results := [];
      assert candidates - rest == {};
      while rest != {}
        invariant rest <= candidates
        invariant multiset(results) == multiset(HitsAmong(docs, candidates - rest, recency, tokens, channelId, filters))
        decreases |rest|
      {
        var id :| id in rest;
        HitsAmongStep(docs, candidates - rest, id, recency, tokens, channelId, filters);
        assert candidates - (rest - {id}) == candidates - rest + {id};
        rest := rest - {id};
        if PassesFilters(docs[id], channelId, filters) {
          var result := Score(docs[id], tokens);
          results := results + [result];
        }
      }
      assert candidates - {} == candidates;
    }

    method Search(query: string, filters: Filters, channelId: string, limit: int) returns (results: seq<SearchResult>)
      requires Valid()
      ensures exists all ::
        && IsScan(all, docs, tok, recency, tok(query), channelId, filters)
        && results == all[..if limit >= 0 then Min(limit, |all|) else Max(0, |all| + limit)]
      ensures forall r :: r in results ==>
          && r.doc.id in docs && docs[r.doc.id] == r.doc
          && (channelId != "" ==> r.doc.channelId == channelId)
          && (filters.fromAuthorId != "" ==> r.doc.authorId == filters.fromAuthorId)
          && (filters.before != "" ==> Less(r.doc.createdAt, filters.before))
      ensures FavoursNew(recency) ==>
          forall i, j :: 0 <= i < j < |results| ==> !Less(results[i].doc.createdAt, results[j].doc.createdAt)
      ensures limit >= 0 ==> |results| <= limit
    {
      var all := RankedScan(tok(query), filters, channelId);
      results := all[..SliceEnd(|all|, limit)];
      forall r | r in results
        ensures r.doc.id in docs && docs[r.doc.id] == r.doc
        ensures channelId != "" ==> r.doc.channelId == channelId
        ensures filters.fromAuthorId != "" ==> r.doc.authorId == filters.fromAuthorId
        ensures filters.before != "" ==> Less(r.doc.createdAt, filters.before)
      {
        ScanFindsOnly(all, docs, tok, recency, tok(query), channelId, filters, r);
      }
      if FavoursNew(recency) {
        ScanIsNewestFirst(all, docs, tok, recency, tok(query), channelId, filters);
      }
    }

    /** The search up to its slice. */
    method RankedScan(tokens: seq<string>, filters: Filters, channelId: string) returns (all: seq<SearchResult>)
      requires Valid()
      ensures IsScan(all, docs, tok, recency, tokens, channelId, filters)
    {
      var candidates := Candidates(tokens, channelId);
      all := Collect(candidates, tokens, channelId, filters);
      HitsAmongCandidates(docs, candidates, tok, recency, tokens, channelId, filters);
      all := SortRanked(all);
    }

    method ClearAll()
      modifies this
      ensures Valid() && docs == map[] && inverted == map[] && channelDocs == map[] && WithinCaps(docs)
    {
      inverted, docs, channelDocs := map[], map[], map[];
      assert forall c :: InChannel(docs, c) == {};
    }
  }

  function Front<T>(s: seq<T>): (r: seq<T>)
    requires s != []
    ensures |r| == |s| - 1 && forall i :: 0 <= i < |r| ==> r[i] == s[i]
  {
    s[..|s| - 1]
  }

  /** A page of documents added one after the other. */
  ghost predicate AddsAll(docs: Store, page: seq<Document>, after: Store)
    decreases |page|
  {
    if page == [] then after == docs
    else exists mid: Store :: AddsAll(docs, Front(page), mid) && Adds(mid, page[|page| - 1], after)
  }

  // ---- Runs ------------------------------------------------------------------

  datatype Op =
    | Add(doc: Document) | AddPage(page: seq<Document>)
    | Remove(id: string) | Clear(c: string) | ClearEverything

  predicate HaveIds(page: seq<Document>) {
    forall i :: 0 <= i < |page| ==> page[i].id != ""
  }

  /** What the class promises of each operation, for documents with an id. */
  ghost predicate Does(docs: Store, op: Op, after: Store) {
    match op
    case Add(doc) => doc.id != "" && Adds(docs, doc, after)
    case AddPage(page) => HaveIds(page) && AddsAll(docs, page, after)
    case Remove(id) => after == docs - {id}
    case Clear(c) => after == docs - InChannel(docs, c)
    case ClearEverything => after == map[]
  }

  ghost predicate Reaches(docs: Store, ops: seq<Op>, after: Store)
    decreases |ops|
  {
    if ops == [] then after == docs
    else exists mid: Store :: Reaches(docs, Front(ops), mid) && Does(mid, ops[|ops| - 1], after)
  }

  lemma {:induction false} SmallerKeepsCaps(docs: Store, after: Store)
    requires Keyed(docs) && WithinCaps(docs)
    requires after.Keys <= docs.Keys && forall id :: id in after ==> after[id] == docs[id]
    ensures Keyed(after) && WithinCaps(after)
  {
    SubsetSize(after.Keys, docs.Keys);
    forall c ensures |InChannel(after, c)| <= MAX_DOCS_PER_CHANNEL {
      SubsetSize(InChannel(after, c), InChannel(docs, c));
    }
  }

  lemma {:induction false} RemovalKeepsCaps(docs: Store, ids: set<string>)
    requires Keyed(docs) && WithinCaps(docs)
    ensures WithinCaps(docs - ids)
  {
    SmallerKeepsCaps(docs, docs - ids);
  }

  lemma {:induction false} EvictsMakesRoom(docs: Store, ids: set<string>, cap: nat, after: Store)
    requires ids <= docs.Keys && Evicts(docs, ids, cap, after) && |ids| <= cap && cap > 0
    ensures after.Keys <= docs.Keys && forall id :: id in after ==> after[id] == docs[id]
    ensures |ids * after.Keys| < cap
  {
    if |ids| < cap {
      assert ids * after.Keys == ids;
    } else {
      var v :| IsOldest(docs, ids, v) && after == docs - {v};
      assert ids * after.Keys == ids - {v};
    }
  }

  lemma InsertInChannel(roomy: Store, doc: Document, d: string)
    requires doc.id !in roomy
    ensures InChannel(roomy[doc.id := doc], d) == InChannel(roomy, d) + if d == doc.channelId then {doc.id} else {}
  {
  }

  lemma InsertKeepsCaps(roomy: Store, doc: Document)
    requires Keyed(roomy) && WithinCaps(roomy) && doc.id !in roomy
    requires |roomy| < MAX_DOCS_GLOBAL && |InChannel(roomy, doc.channelId)| < MAX_DOCS_PER_CHANNEL
    ensures Keyed(roomy[doc.id := doc]) && WithinCaps(roomy[doc.id := doc])
  {
    var after := roomy[doc.id := doc];
    forall d ensures |InChannel(after, d)| <= MAX_DOCS_PER_CHANNEL {
      InsertInChannel(roomy, doc, d);
    }
  }

  lemma {:induction false} AddsKeepsCaps(docs: Store, doc: Document, after: Store)
    requires Keyed(docs) && WithinCaps(docs) && Adds(docs, doc, after)
    ensures Keyed(after) && WithinCaps(after)
  {
    var base, c := docs - {doc.id}, doc.channelId;
    var mid: Store, roomy: Store :|
      && Evicts(base, InChannel(base, c), MAX_DOCS_PER_CHANNEL, mid)
      && Evicts(mid, mid.Keys, MAX_DOCS_GLOBAL, roomy)
      && after == roomy[doc.id := doc];
    SmallerKeepsCaps(docs, base);
    EvictsMakesRoom(base, InChannel(base, c), MAX_DOCS_PER_CHANNEL, mid);
    SmallerKeepsCaps(base, mid);
    EvictsMakesRoom(mid, mid.Keys, MAX_DOCS_GLOBAL, roomy);
    SmallerKeepsCaps(mid, roomy);
    ChannelRoomStays(base, mid, roomy, c);
    InsertKeepsCaps(roomy, doc);
  }

  lemma ChannelRoomStays(base: Store, mid: Store, roomy: Store, c: string)
    requires roomy.Keys <= mid.Keys && forall id :: id in roomy ==> id in base && roomy[id] == base[id]
    ensures |InChannel(roomy, c)| <= |InChannel(base, c) * mid.Keys|
  {
    SubsetSize(InChannel(roomy, c), InChannel(base, c) * mid.Keys);
  }

  lemma {:induction false} AddsAllKeepsCaps(docs: Store, page: seq<Document>, after: Store)
    requires Keyed(docs) && WithinCaps(docs) && AddsAll(docs, page, after)
    ensures Keyed(after) && WithinCaps(after)
    decreases |page|
  {
    if page != [] {
      var mid: Store :| AddsAll(docs, Front(page), mid) && Adds(mid, page[|page| - 1], after);
      AddsAllKeepsCaps(docs, Front(page), mid);
      AddsKeepsCaps(mid, page[|page| - 1], after);
    }
  }

  lemma {:induction false} AddsBringsOneId(docs: Store, doc: Document, after: Store)
    requires Adds(docs, doc, after)
    ensures after.Keys <= docs.Keys + {doc.id}
  {
  }

  lemma {:induction false} AddsAllKeepsIds(docs: Store, page: seq<Document>, after: Store)
    requires "" !in docs && HaveIds(page) && AddsAll(docs, page, after)
    ensures "" !in after
    decreases |page|
  {
    if page != [] {
      var mid: Store :| AddsAll(docs, Front(page), mid) && Adds(mid, page[|page| - 1], after);
      AddsAllKeepsIds(docs, Front(page), mid);
      AddsBringsOneId(mid, page[|page| - 1], after);
    }
  }

  /** Both memory caps hold after every run of the index operations. */
  lemma {:induction false} RunsStayWithinCaps(ops: seq<Op>, after: Store)
    requires Reaches(map[], ops, after)
    ensures Keyed(after) && WithinCaps(after) && "" !in after
    decreases |ops|
  {
    if ops == [] {
      assert forall c :: InChannel(after, c) == {};
    } else {
      var mid: Store :| Reaches(map[], Front(ops), mid) && Does(mid, ops[|ops| - 1], after);
      RunsStayWithinCaps(Front(ops), mid);
      match ops[|ops| - 1]
      case Add(doc) =>
        AddsKeepsCaps(mid, doc, after);
        AddsBringsOneId(mid, doc, after);
      case AddPage(page) =>
        AddsAllKeepsCaps(mid, page, after);
        AddsAllKeepsIds(mid, page, after);
      case Remove(id) => SmallerKeepsCaps(mid, after);
      case Clear(c) => SmallerKeepsCaps(mid, after);
      case ClearEverything => SmallerKeepsCaps(mid, after);
    }
  }

  // ---- What eviction never loses ---------------------------------------------

  /** The other ids on `page` that are at least as new as `doc` in the same channel. */
  ghost function AsNew(page: seq<Document>, doc: Document): set<string> {
    set k | 0 <= k < |page| && page[k].channelId == doc.channelId && page[k].id != doc.id
            && !Less(page[k].createdAt, doc.createdAt)
      :: page[k].id
  }

  ghost predicate DistinctPage(page: seq<Document>) {
    forall i, j :: 0 <= i < j < |page| ==> page[i].id != page[j].id
  }

  ghost predicate OnlyOf(page: seq<Document>, channels: set<string>) {
    forall i :: 0 <= i < |page| ==> page[i].channelId in channels
  }

  /** Every document of the page is of one of `channels`, which together fit into the whole index. */
  ghost predicate FewChannels(page: seq<Document>, channels: set<string>) {
    |channels| * MAX_DOCS_PER_CHANNEL <= MAX_DOCS_GLOBAL && OnlyOf(page, channels)
  }

  lemma {:induction false} WithoutChannel(docs: Store, c: string)
    requires WithinCaps(docs)
    ensures WithinCaps(docs - InChannel(docs, c))
    ensures |docs| == |docs - InChannel(docs, c)| + |InChannel(docs, c)|
  {
    var rest := docs - InChannel(docs, c);
    forall d ensures |InChannel(rest, d)| <= MAX_DOCS_PER_CHANNEL {
      SubsetSize(InChannel(rest, d), InChannel(docs, d));
    }
    SubsetSize(rest.Keys, docs.Keys);
    assert docs.Keys == rest.Keys + InChannel(docs, c);
  }

  lemma {:induction false} FewChannelsFewDocs(docs: Store, channels: set<string>)
    requires WithinCaps(docs) && forall id :: id in docs ==> docs[id].channelId in channels
    ensures |docs| <= |channels| * MAX_DOCS_PER_CHANNEL
    decreases |channels|
  {
    if channels == {} {
      assert docs.Keys == {};
    } else {
      var c :| c in channels;
      WithoutChannel(docs, c);
      FewChannelsFewDocs(docs - InChannel(docs, c), channels - {c});
    }
  }

  /** The other channels hold at most their caps. */
  lemma {:induction false} FewDocsBeside(docs: Store, channels: set<string>, c: string)
    requires WithinCaps(docs) && c in channels && forall id :: id in docs ==> docs[id].channelId in channels
    ensures |docs| <= (|channels| - 1) * MAX_DOCS_PER_CHANNEL + |InChannel(docs, c)|
  {
    WithoutChannel(docs, c);
    FewChannelsFewDocs(docs - InChannel(docs, c), channels - {c});
  }

  ghost predicate OnPage(docs: Store, page: seq<Document>) {
    forall id :: id in docs ==> exists k :: 0 <= k < |page| && page[k].id == id && page[k] == docs[id]
  }

  /** When the oldest document of a channel goes, all the others of that channel are at least as new. */
  lemma VictimIsOld(page: seq<Document>, docs: Store, c: string, v: string)
    requires DistinctPage(page) && OnPage(docs, page) && IsOldest(docs, InChannel(docs, c), v)
    ensures |AsNew(page, docs[v])| >= |InChannel(docs, c)| - 1
  {
    var ids := InChannel(docs, c);
    forall id | id in ids - {v} ensures id in AsNew(page, docs[v]) {
      var k :| 0 <= k < |page| && page[k].id == id && page[k] == docs[id];
      assert !Less(page[k].createdAt, docs[v].createdAt);
    }
    SubsetSize(ids - {v}, AsNew(page, docs[v]));
  }

  /** The channel makes room first, so the whole index is never full. */
  lemma NoGlobalEviction(docs: Store, c: string, room: Store, roomy: Store, channels: set<string>)
    requires WithinCaps(docs) && |channels| * MAX_DOCS_PER_CHANNEL <= MAX_DOCS_GLOBAL
    requires c in channels && forall id :: id in docs ==> docs[id].channelId in channels
    requires Evicts(docs, InChannel(docs, c), MAX_DOCS_PER_CHANNEL, room)
    requires Evicts(room, room.Keys, MAX_DOCS_GLOBAL, roomy)
    ensures roomy == room
  {
    if |InChannel(docs, c)| < MAX_DOCS_PER_CHANNEL {
      FewDocsBeside(docs, channels, c);
    } else {
      var v :| IsOldest(docs, InChannel(docs, c), v) && room == docs - {v};
      assert room.Keys == docs.Keys - {v};
    }
  }

  lemma {:induction false} AddsNew(docs: Store, doc: Document, after: Store) returns (mid: Store, roomy: Store)
    requires doc.id !in docs && Adds(docs, doc, after)
    ensures Evicts(docs, InChannel(docs, doc.channelId), MAX_DOCS_PER_CHANNEL, mid)
    ensures Evicts(mid, mid.Keys, MAX_DOCS_GLOBAL, roomy) && after == roomy[doc.id := doc]
  {
    assert docs - {doc.id} == docs;
    mid, roomy :|
      && Evicts(docs, InChannel(docs, doc.channelId), MAX_DOCS_PER_CHANNEL, mid)
      && Evicts(mid, mid.Keys, MAX_DOCS_GLOBAL, roomy)
      && after == roomy[doc.id := doc];
  }

  /** With few channels loaded, adding a document only makes room in its own channel. */
  lemma AddOnlyMakesChannelRoom(docs: Store, doc: Document, after: Store, channels: set<string>) returns (room: Store)
    requires WithinCaps(docs) && doc.id !in docs && Adds(docs, doc, after)
    requires |channels| * MAX_DOCS_PER_CHANNEL <= MAX_DOCS_GLOBAL
    requires doc.channelId in channels && forall id :: id in docs ==> docs[id].channelId in channels
    ensures Evicts(docs, InChannel(docs, doc.channelId), MAX_DOCS_PER_CHANNEL, room) && after == room[doc.id := doc]
  {
    var roomy;
    room, roomy := AddsNew(docs, doc, after);
    NoGlobalEviction(docs, doc.channelId, room, roomy, channels);
  }

  /** Making room in a channel drops nothing that has too few documents above it. */
  lemma RoomKeepsNewest(page: seq<Document>, mid: Store, c: string, room: Store, kept: Document)
    requires DistinctPage(page) && OnPage(mid, page) && Evicts(mid, InChannel(mid, c), MAX_DOCS_PER_CHANNEL, room)
    requires kept.id in mid && mid[kept.id] == kept && |AsNew(page, kept)| < MAX_DOCS_PER_CHANNEL - 1
    ensures kept.id in room && room[kept.id] == kept
  {
    if |InChannel(mid, c)| >= MAX_DOCS_PER_CHANNEL {
      var v :| IsOldest(mid, InChannel(mid, c), v) && room == mid - {v};
      VictimIsOld(page, mid, c, v);
    }
  }

  lemma OnLongerPage(docs: Store, page: seq<Document>)
    requires page != [] && OnPage(docs, Front(page))
    ensures OnPage(docs, page)
  {
  }

  lemma AddStaysOnPage(page: seq<Document>, mid: Store, after: Store)
    requires page != [] && OnPage(mid, page) && Adds(mid, page[|page| - 1], after)
    ensures OnPage(after, page)
  {
  }

  lemma FewerAsNewBefore(page: seq<Document>, i: nat)
    requires i < |page| - 1
    ensures |AsNew(Front(page), Front(page)[i])| <= |AsNew(page, page[i])|
  {
    assert AsNew(Front(page), Front(page)[i]) <= AsNew(page, page[i]);
    SubsetSize(AsNew(Front(page), Front(page)[i]), AsNew(page, page[i]));
  }

  /** Every document with too few others as new in its channel to be evicted is there. */
  ghost predicate KeepsNewest(docs: Store, page: seq<Document>) {
    forall i :: 0 <= i < |page| && |AsNew(page, page[i])| < MAX_DOCS_PER_CHANNEL - 1 ==>
      page[i].id in docs && docs[page[i].id] == page[i]
  }

  lemma NotYetStored(page: seq<Document>, mid: Store, channels: set<string>)
    requires page != [] && DistinctPage(page) && FewChannels(page, channels) && OnPage(mid, Front(page))
    ensures page[|page| - 1].id !in mid && forall id :: id in mid ==> mid[id].channelId in channels
  {
  }

  lemma AddKeepsNewest(page: seq<Document>, mid: Store, room: Store, after: Store)
    requires page != [] && DistinctPage(page) && OnPage(mid, page) && KeepsNewest(mid, Front(page))
    requires Evicts(mid, InChannel(mid, page[|page| - 1].channelId), MAX_DOCS_PER_CHANNEL, room)
    requires after == room[page[|page| - 1].id := page[|page| - 1]]
    ensures KeepsNewest(after, page)
  {
    forall i | 0 <= i < |page| - 1 && |AsNew(page, page[i])| < MAX_DOCS_PER_CHANNEL - 1
      ensures page[i].id in after && after[page[i].id] == page[i]
    {
      FewerAsNewBefore(page, i);
      assert Front(page)[i] == page[i];
      RoomKeepsNewest(page, mid, page[|page| - 1].channelId, room, page[i]);
    }
  }

  /**
   * Whatever order history pages arrive in, each of a channel's newest MAX_DOCS_PER_CHANNEL - 1
   * documents stays indexed, as long as the loaded channels fit into the whole index together.
   */
  lemma {:induction false} NewestStayIndexed(page: seq<Document>, after: Store, channels: set<string>)
    requires DistinctPage(page) && FewChannels(page, channels)
    requires AddsAll(map[], page, after)
    ensures OnPage(after, page) && KeepsNewest(after, page)
    decreases |page|
  {
    if page != [] {
      var front, last := Front(page), page[|page| - 1];
      var mid: Store :| AddsAll(map[], front, mid) && Adds(mid, last, after);
      NewestStayIndexed(front, mid, channels);
      assert forall c :: InChannel(map[], c) == {};
      AddsAllKeepsCaps(map[], front, mid);
      NotYetStored(page, mid, channels);
      OnLongerPage(mid, page);
      AddStaysOnPage(page, mid, after);
      var room := AddOnlyMakesChannelRoom(mid, last, after, channels);
      AddKeepsNewest(page, mid, room, after);
    }
  }

  // ---- One channel more can lose its newest -----------------------------------

  /** The k-th moment: longer is later. */
  function Stamp(k: nat): string {
    seq(k + 1, _ => 'a')
  }

  /** The first document is alone in its channel, the next ones fill up one channel after the other. */
  function ChannelNo(k: nat): nat {
    if k == 0 then 0 else 1 + (k - 1) / MAX_DOCS_PER_CHANNEL
  }

  function DocNo(k: nat): Document {
    Document(Stamp(k), Stamp(ChannelNo(k)), "", "", Stamp(k))
  }

  function PageOf(n: nat): seq<Document> {
    seq(n, k requires 0 <= k < n => DocNo(k))
  }

  ghost function Stored(n: nat): Store {
    map id | id in Stamps(0, n) :: DocNo(|id| - 1)
  }

  ghost function Stamps(a: nat, b: nat): set<string> {
    set k | a <= k < b :: Stamp(k)
  }

  lemma {:induction false} StampsCount(a: nat, b: nat)
    requires a <= b
    ensures |Stamps(a, b)| == b - a
    decreases b
  {
    if a < b {
      StampsCount(a, b - 1);
      assert Stamps(a, b) == Stamps(a, b - 1) + {Stamp(b - 1)};
      assert forall k :: a <= k < b - 1 ==> |Stamp(k)| != |Stamp(b - 1)|;
    } else {
      assert Stamps(a, b) == {};
    }
  }

  lemma {:induction false} StampsGrow(i: nat, j: nat)
    requires i < j
    ensures Less(Stamp(i), Stamp(j))
  {
    assert Stamp(j)[1..] == Stamp(j - 1);
    if i > 0 {
      assert Stamp(i)[1..] == Stamp(i - 1);
      StampsGrow(i - 1, j - 1);
    }
  }

  /** A channel being filled has room. */
  lemma ChannelHasRoom(n: nat)
    ensures |InChannel(Stored(n), DocNo(n).channelId)| < MAX_DOCS_PER_CHANNEL
  {
    var from := if n == 0 then 0 else 1 + (ChannelNo(n) - 1) * MAX_DOCS_PER_CHANNEL;
    forall id | id in InChannel(Stored(n), DocNo(n).channelId) ensures id in Stamps(from, n) {
      var k :| 0 <= k < n && id == Stamp(k);
      assert |Stamp(ChannelNo(k))| == |Stamp(ChannelNo(n))|;
    }
    SubsetSize(InChannel(Stored(n), DocNo(n).channelId), Stamps(from, n));
    StampsCount(from, n);
  }

  lemma StampsStep(n: nat)
    ensures Stamps(0, n + 1) == Stamps(0, n) + {Stamp(n)} && Stamp(n) !in Stamps(0, n)
  {
    assert forall k :: 0 <= k < n ==> |Stamp(k)| != |Stamp(n)|;
  }

  lemma StoredKeys(n: nat)
    ensures Stored(n).Keys == Stamps(0, n) && |Stored(n)| == n && Stamp(n) !in Stored(n)
  {
    StampsCount(0, n);
    StampsStep(n);
    assert Stored(n).Keys == Stamps(0, n);
  }

  lemma StoredStep(n: nat)
    ensures Stored(n + 1) == Stored(n)[Stamp(n) := DocNo(n)]
  {
    var a, b := Stored(n + 1), Stored(n)[Stamp(n) := DocNo(n)];
    StampsStep(n);
    assert a.Keys == b.Keys;
    forall id | id in a.Keys ensures a[id] == b[id] {
      assert id == Stamp(n) ==> |id| - 1 == n;
    }
  }

  lemma AddsWithoutEviction(docs: Store, doc: Document)
    requires doc.id !in docs && |docs| < MAX_DOCS_GLOBAL
    requires |InChannel(docs, doc.channelId)| < MAX_DOCS_PER_CHANNEL
    ensures Adds(docs, doc, docs[doc.id := doc])
  {
    assert docs - {doc.id} == docs;
    assert Evicts(docs, InChannel(docs, doc.channelId), MAX_DOCS_PER_CHANNEL, docs);
    assert Evicts(docs, docs.Keys, MAX_DOCS_GLOBAL, docs);
  }

  lemma PageSnoc(n: nat)
    ensures Front(PageOf(n + 1)) == PageOf(n) && PageOf(n + 1)[n] == DocNo(n)
  {
  }

  /** Up to the global cap nothing is evicted. */
  lemma {:induction false} AllStored(n: nat)
    requires n <= MAX_DOCS_GLOBAL
    ensures AddsAll(map[], PageOf(n), Stored(n))
  {
    if n == 0 {
      assert Stored(0) == map[];
    } else {
      AllStored(n - 1);
      PageSnoc(n - 1);
      StoredKeys(n - 1);
      StoredStep(n - 1);
      ChannelHasRoom(n - 1);
      AddsWithoutEviction(Stored(n - 1), DocNo(n - 1));
    }
  }

  lemma FirstIsOldest(n: nat)
    requires n > 0
    ensures Stored(n).Keys == Stamps(0, n) && IsOldest(Stored(n), Stored(n).Keys, Stamp(0))
  {
    var docs := Stored(n);
    StoredKeys(n);
    assert Stamp(0) in Stamps(0, n);
    forall id | id in docs ensures !Less(docs[id].createdAt, docs[Stamp(0)].createdAt) {
      var k :| 0 <= k < n && id == Stamp(k);
      LessTotal(Stamp(0), Stamp(k));
      if k > 0 {
        StampsGrow(0, k);
      }
    }
  }

  /** A document that fits into its channel but not into the whole index makes an oldest one go. */
  lemma AddsOverOldest(docs: Store, doc: Document, v: string)
    requires doc.id !in docs && |docs| >= MAX_DOCS_GLOBAL && IsOldest(docs, docs.Keys, v)
    requires |InChannel(docs, doc.channelId)| < MAX_DOCS_PER_CHANNEL
    ensures Adds(docs, doc, (docs - {v})[doc.id := doc])
  {
    assert docs - {doc.id} == docs;
    assert Evicts(docs, InChannel(docs, doc.channelId), MAX_DOCS_PER_CHANNEL, docs);
    assert Evicts(docs, docs.Keys, MAX_DOCS_GLOBAL, docs - {v});
  }

  lemma StampedPage(n: nat)
    ensures DistinctPage(PageOf(n))
    ensures forall k :: 0 < k < n ==> PageOf(n)[k].channelId != PageOf(n)[0].channelId
  {
    var page := PageOf(n);
    forall i, j | 0 <= i < j < n ensures page[i].id != page[j].id {
      assert |Stamp(i)| != |Stamp(j)|;
    }
    forall k | 0 < k < n ensures page[k].channelId != page[0].channelId {
      assert |Stamp(ChannelNo(k))| != |Stamp(ChannelNo(0))|;
    }
  }

  lemma AloneInChannel(page: seq<Document>)
    requires page != [] && forall k :: 0 < k < |page| ==> page[k].channelId != page[0].channelId
    ensures AsNew(page, page[0]) == {}
  {
  }

  /** A page after which the only document of a channel, with none as new above it, is not indexed. */
  ghost predicate LosesNewest(page: seq<Document>, channels: set<string>, after: Store) {
    && DistinctPage(page) && OnlyOf(page, channels) && AddsAll(map[], page, after)
    && exists i :: 0 <= i < |page| && page[i].id !in after && AsNew(page, page[i]) == {}
  }

  ghost function LastStored(n: nat): Store {
    (Stored(n) - {Stamp(0)})[Stamp(n) := DocNo(n)]
  }

  lemma LastAdds(n: nat)
    requires n == MAX_DOCS_GLOBAL
    ensures AddsAll(map[], PageOf(n + 1), LastStored(n))
  {
    AllStored(n);
    PageSnoc(n);
    StoredKeys(n);
    ChannelHasRoom(n);
    FirstIsOldest(n);
    AddsOverOldest(Stored(n), DocNo(n), Stamp(0));
  }

  lemma FirstIsGone(n: nat)
    requires n > 0
    ensures PageOf(n + 1)[0].id !in LastStored(n)
  {
    assert |Stamp(0)| != |Stamp(n)|;
  }

  lemma SixChannels(n: nat)
    requires n <= MAX_DOCS_GLOBAL
    ensures |Stamps(0, 6)| == 6 && OnlyOf(PageOf(n + 1), Stamps(0, 6))
  {
    var page := PageOf(n + 1);
    StampsCount(0, 6);
    forall i | 0 <= i < |page| ensures page[i].channelId in Stamps(0, 6) {
      assert ChannelNo(i) < 6;
    }
  }

  lemma LastLosesFirst(n: nat)
    requires n == MAX_DOCS_GLOBAL
    ensures LosesNewest(PageOf(n + 1), Stamps(0, 6), LastStored(n))
  {
    LastAdds(n);
    StampedPage(n + 1);
    AloneInChannel(PageOf(n + 1));
    FirstIsGone(n);
    SixChannels(n);
  }

  /** The bound on the channels is exact: one more, and a channel can lose even its newest document. */
  lemma OneChannelTooMany()
    ensures exists page, channels, after ::
      |channels| == MAX_DOCS_GLOBAL / MAX_DOCS_PER_CHANNEL + 1 && LosesNewest(page, channels, after)
  {
    SixChannels(MAX_DOCS_GLOBAL);
    LastLosesFirst(MAX_DOCS_GLOBAL);
  }
}
