/**
 * The Reuters-21578 indexer (indices.py): inverted indexes from term to
 * postings list built in two ways, single-term and AND queries over them,
 * the size of an index, and the selection of its most frequent terms.
 *
 * A Python dict is an `Index` object: its keys in insertion order and the
 * list stored under each. An article is its NEWID, already read as an
 * integer, and its tokens.
 */
module Indexer {
  import opened Wrappers
  import opened Ordering

  type Term = string
  type DocId = nat

  /** One tokenized article: (id, [words]). */
  datatype Article = Article(id: DocId, words: seq<Term>)

  /** The exception Python raises on a path the source does not guard. */
  datatype Raised = TypeError | IndexError

  /** The ids of a postings list as a set. */
  function Members(s: seq<DocId>): set<DocId> {
    set d | d in s
  }

  predicate Increasing(s: seq<nat>) {
    forall i, j :: 0 <= i < j < |s| ==> s[i] < s[j]
  }

  /** Every word of every article. */
  function Vocabulary(tokens: seq<Article>): set<Term> {
    set a, w | a in tokens && w in a.words :: w
  }

  /** The ids of the articles that contain t. */
  function Containing(tokens: seq<Article>, t: Term): set<DocId> {
    set a | a in tokens && t in a.words :: a.id
  }

  /** lists is an inverted index of the articles: one key per word, listing exactly the articles that contain it. */
  ghost predicate Indexes(lists: map<Term, seq<DocId>>, tokens: seq<Article>) {
    && (forall t :: t in lists <==> t in Vocabulary(tokens))
    && (forall t :: t in lists ==> Members(lists[t]) == Containing(tokens, t))
  }

  /** keys without t. */
  function Without(keys: seq<Term>, t: Term): (r: seq<Term>)
    ensures forall x :: x in r <==> x in keys && x != t
    ensures t !in keys ==> r == keys
    ensures Distinct(keys) ==> Distinct(r)
    ensures Distinct(keys) && t in keys ==> |r| == |keys| - 1
  {
    if keys == [] then []
    else if keys[0] == t then Without(keys[1..], t)
    else
      var rest := Without(keys[1..], t);
      assert Distinct(keys) ==> keys[0] !in keys[1..] && Distinct(keys[1..]);
      [keys[0]] + rest
  }

  /** A dict from terms to postings lists. */
  class Index {
    var keys: seq<Term>
    var lists: map<Term, seq<DocId>>

    ghost predicate Valid()
      reads this
    {
      Distinct(keys) && forall t :: t in lists <==> t in keys
    }

    /** `dict()` */
    constructor ()
      ensures Valid() && keys == [] && lists == map[]
    {
      keys := [];
      lists := map[];
    }

    /** `index[t] = ids`: a new key goes last, an existing one keeps its place. */
    method Put(t: Term, ids: seq<DocId>)
      requires Valid()
      modifies this
      ensures Valid() && lists == old(lists)[t := ids]
      ensures keys == if t in old(lists) then old(keys) else old(keys) + [t]
    {
      if t !in lists {
        keys := keys + [t];
      }
      lists := lists[t := ids];
    }

    /** `index[t].append(d)` */
    method Append(t: Term, d: DocId)
      requires Valid() && t in lists
      modifies this
      ensures Valid() && keys == old(keys) && lists == old(lists)[t := old(lists)[t] + [d]]
    {
      lists := lists[t := lists[t] + [d]];
    }

    /** `del index[t]` */
    method Delete(t: Term)
      requires Valid() && t in lists
      modifies this
      ensures Valid() && keys == Without(old(keys), t) && lists == old(lists) - {t}
    {
      keys := Without(keys, t);
      lists := lists - {t};
    }
  }

  // ----- building an index -----

  /** The (word, id) pairs of one article, in its word order. */
  function WordPairs(a: Article): (r: seq<(Term, DocId)>)
    ensures |r| == |a.words| && forall k :: 0 <= k < |r| ==> r[k] == (a.words[k], a.id)
  {
    seq(|a.words|, k requires 0 <= k < |a.words| => (a.words[k], a.id))
  }

  /** The (word, id) pairs of all articles: one per word occurrence, in reading order. */
  function Pairs(tokens: seq<Article>): seq<(Term, DocId)> {
    if tokens == [] then [] else Pairs(tokens[..|tokens| - 1]) + WordPairs(tokens[|tokens| - 1])
  }

  /** A pair is read exactly when its word occurs in an article with its id. */
  lemma {:induction false} PairsMembers(tokens: seq<Article>, t: Term, d: DocId)
    ensures (t, d) in Pairs(tokens) <==> exists a :: a in tokens && a.id == d && t in a.words
  {
    if tokens != [] {
      var init, last := tokens[..|tokens| - 1], tokens[|tokens| - 1];
      PairsMembers(init, t, d);
      assert tokens == init + [last];
      if (t, d) in WordPairs(last) {
        var k :| 0 <= k < |last.words| && WordPairs(last)[k] == (t, d);
        assert last.words[k] == t;
      }
      if t in last.words && last.id == d {
        var k :| 0 <= k < |last.words| && last.words[k] == t;
        assert WordPairs(last)[k] == (t, d);
      }
    }
  }

  /** The ids that s pairs with u, in the order of s. */
  function Column(s: seq<(Term, DocId)>, u: Term): seq<DocId> {
    if s == [] then []
    else Column(s[..|s| - 1], u) + (if s[|s| - 1].0 == u then [s[|s| - 1].1] else [])
  }

  /** Appending a pair extends the column of its term by its id. */
  lemma ColumnSnoc(s: seq<(Term, DocId)>, p: (Term, DocId), u: Term)
    ensures Column(s + [p], u) == Column(s, u) + (if p.0 == u then [p.1] else [])
  {
    assert (s + [p])[..|s|] == s;
  }

  lemma {:induction false} ColumnMembers(s: seq<(Term, DocId)>, u: Term, d: DocId)
    ensures d in Column(s, u) <==> (u, d) in s
  {
    if s != [] {
      ColumnMembers(s[..|s| - 1], u, d);
      assert s == s[..|s| - 1] + [s[|s| - 1]];
    }
  }

  /** The order `temp.sort()` uses on (term, id) pairs. */
  predicate TermThenId(a: (Term, DocId), b: (Term, DocId)) {
    Below(a.0, b.0) || (a.0 == b.0 && a.1 < b.1)
  }

  lemma TermThenIdIsStrictTotal()
    ensures StrictTotal(TermThenId)
  {
    forall a: (Term, DocId)
      ensures !TermThenId(a, a)
    {
      BelowIrreflexive(a.0);
    }
    forall a: (Term, DocId), b: (Term, DocId), c: (Term, DocId) | TermThenId(a, b) && TermThenId(b, c)
      ensures TermThenId(a, c)
    {
      if Below(a.0, b.0) && Below(b.0, c.0) {
        BelowTransitive(a.0, b.0, c.0);
      }
    }
    forall a: (Term, DocId), b: (Term, DocId) | a != b
      ensures TermThenId(a, b) || TermThenId(b, a)
    {
      if a.0 != b.0 {
        BelowTotal(a.0, b.0);
      }
    }
  }

  /** In pairs sorted by term then id, the ids of each term increase. */
  lemma {:induction false} SortedColumnIncreases(s: seq<(Term, DocId)>, u: Term)
    requires SortedBy(s, TermThenId)
    ensures Increasing(Column(s, u))
  {
    if s != [] {
      var init, last := s[..|s| - 1], s[|s| - 1];
      assert SortedBy(init, TermThenId);
      SortedColumnIncreases(init, u);
      if last.0 == u {
        BelowIrreflexive(u);
        var c := Column(init, u);
        forall i | 0 <= i < |c|
          ensures c[i] < last.1
        {
          ColumnMembers(init, u, c[i]);
          var k :| 0 <= k < |init| && init[k] == (u, c[i]);
          assert TermThenId(s[k], s[|s| - 1]);
        }
        assert Column(s, u) == c + [last.1];
      }
    }
  }

  /** A table whose columns are those of pairs with the articles' pairs as elements indexes the articles. */
  lemma ColumnsIndex(s: seq<(Term, DocId)>, tokens: seq<Article>, lists: map<Term, seq<DocId>>)
    requires forall p :: p in s <==> p in Pairs(tokens)
    requires forall u :: (u in lists <==> Column(s, u) != []) && (u in lists ==> lists[u] == Column(s, u))
    ensures Indexes(lists, tokens)
  {
    forall u
      ensures u in lists <==> u in Vocabulary(tokens)
    {
      if u in lists {
        var d := Column(s, u)[0];
        ColumnMembers(s, u, d);
        PairsMembers(tokens, u, d);
      }
      if u in Vocabulary(tokens) {
        var a :| a in tokens && u in a.words;
        PairsMembers(tokens, u, a.id);
        ColumnMembers(s, u, a.id);
      }
    }
    forall u | u in lists
      ensures Members(lists[u]) == Containing(tokens, u)
    {
      forall d
        ensures d in lists[u] <==> d in Containing(tokens, u)
      {
        ColumnMembers(s, u, d);
        PairsMembers(tokens, u, d);
      }
    }
  }

  /** The number of ids in the lists of the keys. */
  function TotalPostings(keys: seq<Term>, lists: map<Term, seq<DocId>>): nat
    requires forall t :: t in keys ==> t in lists
  {
    if keys == [] then 0
    else TotalPostings(keys[..|keys| - 1], lists) + |lists[keys[|keys| - 1]]|
  }

  /** Storing ids under a key of keys changes the total by the difference in length; under another key, not at all. */
  lemma {:induction false} TotalAfterPut(keys: seq<Term>, lists: map<Term, seq<DocId>>, t: Term, ids: seq<DocId>)
    requires Distinct(keys) && forall x :: x in keys ==> x in lists
    ensures t in keys ==> TotalPostings(keys, lists[t := ids]) + |lists[t]| == TotalPostings(keys, lists) + |ids|
    ensures t !in keys ==> TotalPostings(keys, lists[t := ids]) == TotalPostings(keys, lists)
  {
    if keys != [] {
      TotalAfterPut(keys[..|keys| - 1], lists, t, ids);
    }
  }

  /** keys and lists are the table the pairs of done give: each term's ids in order, one per pair. */
  ghost predicate Tabulates(keys: seq<Term>, lists: map<Term, seq<DocId>>, done: seq<(Term, DocId)>) {
    && Distinct(keys) && (forall t :: t in lists <==> t in keys)
    && (forall u :: u in lists <==> Column(done, u) != [])
    && (forall u :: u in lists ==> lists[u] == Column(done, u))
    && TotalPostings(keys, lists) == |done|
  }

  /** The step both builders repeat: `table[w] = [id]` for a new term, `table[w].append(id)` otherwise. */
  method Record(table: Index, w: Term, id: DocId, ghost done: seq<(Term, DocId)>)
    requires table.Valid() && Tabulates(table.keys, table.lists, done)
    modifies table
    ensures table.Valid() && Tabulates(table.keys, table.lists, done + [(w, id)])
  {
    forall u {
      ColumnSnoc(done, (w, id), u);
    }
    TotalAfterPut(table.keys, table.lists, w, if w in table.lists then table.lists[w] + [id] else [id]);
    if w !in table.lists {
      table.Put(w, [id]);
    } else {
      table.Append(w, id);
    }
  }

  /** The pairs after reading the first i articles and the first j words of article i. */
  ghost function ReadSoFar(tokens: seq<Article>, i: nat, j: nat): seq<(Term, DocId)>
    requires i < |tokens| && j <= |tokens[i].words|
  {
    Pairs(tokens[..i]) + WordPairs(tokens[i])[..j]
  }

  /** Reading one more word appends its pair; finishing an article gives the pairs of the articles so far. */
  lemma ReadOneMore(tokens: seq<Article>, i: nat, j: nat)
    requires i < |tokens| && j <= |tokens[i].words|
    ensures j < |tokens[i].words| ==> ReadSoFar(tokens, i, j + 1) == ReadSoFar(tokens, i, j) + [(tokens[i].words[j], tokens[i].id)]
    ensures j == |tokens[i].words| ==> ReadSoFar(tokens, i, j) == Pairs(tokens[..i + 1])
  {
    assert tokens[..i + 1][..i] == tokens[..i];
    if j < |tokens[i].words| {
      assert WordPairs(tokens[i])[..j + 1] == WordPairs(tokens[i])[..j] + [WordPairs(tokens[i])[j]];
    }
  }

  /** The first loop of naiveIndex: the (word, id) pair of every word, in reading order. */
  method CollectPairs(tokens: seq<Article>) returns (f: seq<(Term, DocId)>)
    ensures f == Pairs(tokens)
  {
    f := [];
    var i := 0;
    while i < |tokens|
      invariant 0 <= i <= |tokens| && f == Pairs(tokens[..i])
    {
      var j := 0;
      while j < |tokens[i].words|
        invariant 0 <= j <= |tokens[i].words| && f == ReadSoFar(tokens, i, j)
      {
        ReadOneMore(tokens, i, j);
        f := f + [(tokens[i].words[j], tokens[i].id)];
        j := j + 1;
      }
      ReadOneMore(tokens, i, j);
      i := i + 1;
    }
    assert tokens[..|tokens|] == tokens;
  }

  /** `list(dict.fromkeys(f))`: the first occurrence of each element, in order. */
  function FirstOccurrences<T(==, !new)>(s: seq<T>): (r: seq<T>)
    ensures Distinct(r) && forall x :: x in r <==> x in s
  {
    if s == [] then []
    else
      var init := FirstOccurrences(s[..|s| - 1]);
      assert s == s[..|s| - 1] + [s[|s| - 1]];
      if s[|s| - 1] in init then init else init + [s[|s| - 1]]
  }

  /** One pass of the last loop of naiveIndex: the table of the first k pairs becomes that of the first k + 1. */
  method RecordPair(table: Index, temp: seq<(Term, DocId)>, k: nat)
    requires k < |temp| && table.Valid() && Tabulates(table.keys, table.lists, temp[..k])
    modifies table
    ensures table.Valid() && Tabulates(table.keys, table.lists, temp[..k + 1])
  {
    assert temp[..k + 1] == temp[..k] + [temp[k]];
    Record(table, temp[k].0, temp[k].1, temp[..k]);
  }

  /** The last loop of naiveIndex: a new term gets a list of its id, a known term has the id appended. */
  method Tabulate(temp: seq<(Term, DocId)>) returns (table: Index)
    ensures table.Valid() && Tabulates(table.keys, table.lists, temp)
  {
    table := new Index();
    var k := 0;
    while k < |temp|
      invariant 0 <= k <= |temp| && table.Valid() && Tabulates(table.keys, table.lists, temp[..k])
    {
      RecordPair(table, temp, k);
      k := k + 1;
    }
    assert temp[..|temp|] == temp;
  }

  /**
   * naiveIndex: the (word, id) pairs without repeats, sorted by term and
   * then id, are grouped by term. Every list increases strictly, and the
   * index holds one entry per distinct (word, article) pair.
   */
  method NaiveIndex(tokens: seq<Article>) returns (table: Index)
    ensures table.Valid() && Indexes(table.lists, tokens)
    ensures forall t :: t in table.lists ==> Increasing(table.lists[t])
    ensures TotalPostings(table.keys, table.lists) == |FirstOccurrences(Pairs(tokens))|
  {
    var f := CollectPairs(tokens);
    f := FirstOccurrences(f);
    TermThenIdIsStrictTotal();
    SortBySorts(f, TermThenId);
    var temp := SortBy(f, TermThenId);
    assert forall p :: p in temp <==> p in multiset(f);
    table := Tabulate(temp);
    ColumnsIndex(temp, tokens, table.lists);
    forall t | t in table.lists
      ensures Increasing(table.lists[t])
    {
      SortedColumnIncreases(temp, t);
    }
  }

  /**
   * spimiIndex: one pass over the words; each term lists the id of every
   * occurrence in reading order, repeats included, so the index holds one
   * entry per word read.
   */
  method SpimiIndex(tokens: seq<Article>) returns (table: Index)
    ensures table.Valid() && Indexes(table.lists, tokens)
    ensures forall t :: t in table.lists ==> table.lists[t] == Column(Pairs(tokens), t)
    ensures TotalPostings(table.keys, table.lists) == |Pairs(tokens)|
  {
    table := new Index();
    var i := 0;
    while i < |tokens|
      invariant 0 <= i <= |tokens| && table.Valid() && Tabulates(table.keys, table.lists, Pairs(tokens[..i]))
    {
      var j := 0;
      ReadOneMore(tokens, i, 0);
      assert ReadSoFar(tokens, i, 0) == Pairs(tokens[..i]);
      while j < |tokens[i].words|
        invariant 0 <= j <= |tokens[i].words| && table.Valid() && Tabulates(table.keys, table.lists, ReadSoFar(tokens, i, j))
      {
        ReadOneMore(tokens, i, j);
        Record(table, tokens[i].words[j], tokens[i].id, ReadSoFar(tokens, i, j));
        j := j + 1;
      }
      ReadOneMore(tokens, i, j);
      i := i + 1;
    }
    assert tokens[..|tokens|] == tokens;
    ColumnsIndex(Pairs(tokens), tokens, table.lists);
  }

  /** Both ways of indexing give the same terms and, for each, the same set of articles. */
  lemma IndexesAgree(naive: map<Term, seq<DocId>>, spimi: map<Term, seq<DocId>>, tokens: seq<Article>)
    requires Indexes(naive, tokens) && Indexes(spimi, tokens)
    ensures naive.Keys == spimi.Keys
    ensures forall t :: t in naive ==> Members(naive[t]) == Members(spimi[t])
  {
  }

  // ----- queries -----

  /** singleQuery: the postings list of the term, or None when the index lacks it. */
  function SingleQuery(lists: map<Term, seq<DocId>>, query: Term): Option<seq<DocId>> {
    if query in lists then Some(lists[query]) else None
  }

  /** On an index of the articles, a single-term query finds exactly the articles containing the term. */
  lemma SingleQueryFindsArticles(lists: map<Term, seq<DocId>>, tokens: seq<Article>, query: Term)
    requires Indexes(lists, tokens)
    ensures SingleQuery(lists, query).Some? <==> exists a :: a in tokens && query in a.words
    ensures SingleQuery(lists, query).Some? ==>
      forall d :: d in SingleQuery(lists, query).value <==> exists a :: a in tokens && a.id == d && query in a.words
  {
    if SingleQuery(lists, query).Some? {
      forall d
        ensures d in lists[query] <==> exists a :: a in tokens && a.id == d && query in a.words
      {
        assert d in lists[query] <==> d in Members(lists[query]);
        assert d in Containing(tokens, query) <==> exists a :: a in tokens && a.id == d && query in a.words;
      }
    }
  }

  /** A set's least element. */
  function Least(s: set<DocId>): (m: DocId)
    requires s != {}
    ensures m in s && forall x :: x in s ==> m <= x
  {
    LeastExists(s);
    var m :| m in s && forall x :: x in s ==> m <= x;
    m
  }

  lemma LeastExists(s: set<DocId>)
    requires s != {}
    ensures exists m :: m in s && forall x :: x in s ==> m <= x
  {
    var y :| y in s;
    LeastUpTo(s, y);
  }

  /** Descending from an element, a least one is reached. */
  lemma {:induction false} LeastUpTo(s: set<DocId>, y: DocId)
    requires y in s
    ensures exists m :: m in s && forall x :: x in s ==> m <= x
    decreases y
  {
    if exists x :: x in s && x < y {
      var x :| x in s && x < y;
      LeastUpTo(s, x);
    } else {
      assert forall x :: x in s ==> y <= x;
    }
  }

  /** `sorted(s)` of a set of ids: its elements in increasing order. */
  function SortedSet(s: set<DocId>): (r: seq<DocId>)
    ensures Increasing(r) && forall d :: d in r <==> d in s
    decreases |s|
  {
    if s == {} then []
    else
      var m := Least(s);
      [m] + SortedSet(s - {m})
  }

  /**
   * andQuery: None as soon as a query term is missing from the index;
   * otherwise the ids listed under every term, sorted. With no terms at all
   * the result is still None when sorted is called, which raises TypeError.
   */
  method AndQuery(index: Index, queries: seq<Term>) returns (r: Result<Option<seq<DocId>>, Raised>)
    requires index.Valid()
    ensures r.Err? <==> queries == []
    ensures r.Err? ==> r.error == TypeError
    ensures r == Ok(None) <==> exists q :: q in queries && q !in index.lists
    ensures r.Ok? && r.value.Some? ==> Increasing(r.value.value)
    ensures r.Ok? && r.value.Some? ==>
      forall d :: d in r.value.value <==> forall q :: q in queries ==> q in index.lists && d in index.lists[q]
  {
    var result: Option<set<DocId>> := None;
    var k := 0;
    while k < |queries|
      invariant 0 <= k <= |queries|
      invariant forall q :: q in queries[..k] ==> q in index.lists
      invariant result.None? <==> k == 0
      invariant result.Some? ==>
        forall d :: d in result.value <==> forall q :: q in queries[..k] ==> d in index.lists[q]
    {
      var query := queries[k];
      if query in index.lists {
        if result.None? {
          result := Some(Members(index.lists[query]));
        } else {
          result := Some(result.value * Members(index.lists[query]));
        }
      } else {
        return Ok(None);
      }
      assert queries[..k + 1] == queries[..k] + [query];
      k := k + 1;
    }
    assert queries[..k] == queries;
    if result.None? {
      return Err(TypeError);
    }
    r := Ok(Some(SortedSet(result.value)));
  }

  /** calculateSize: the number of terms and the number of ids over all postings lists. */
  method CalculateSize(index: Index) returns (terms: nat, postings: nat)
    requires index.Valid()
    ensures terms == |index.keys|
    ensures postings == TotalPostings(index.keys, index.lists)
  {
    terms := |index.lists|;
    KeysCount(index.keys, index.lists);
    postings := 0;
    var k := 0;
    while k < |index.keys|
      invariant 0 <= k <= |index.keys| && postings == TotalPostings(index.keys[..k], index.lists)
    {
      assert index.keys[..k + 1][..k] == index.keys[..k];
      postings := postings + |index.lists[index.keys[k]]|;
      k := k + 1;
    }
    assert index.keys[..k] == index.keys;
  }

  /** A dict has as many entries as it has keys. */
  lemma KeysCount(keys: seq<Term>, lists: map<Term, seq<DocId>>)
    requires Distinct(keys) && forall t :: t in lists <==> t in keys
    ensures |lists| == |keys|
  {
    assert lists.Keys == set t | t in keys;
    DistinctCount(keys);
  }

  lemma {:induction false} DistinctCount(keys: seq<Term>)
    requires Distinct(keys)
    ensures |set t | t in keys| == |keys|
  {
    if keys != [] {
      var init := keys[..|keys| - 1];
      DistinctCount(init);
      assert (set t | t in keys) == (set t | t in init) + {keys[|keys| - 1]};
    }
  }

  // ----- stopwords -----

  /** The order `words.sort(reverse=True)` leaves (postings, term) tuples in: more postings first, then the greater term. */
  predicate Before(a: (nat, Term), b: (nat, Term)) {
    a.0 > b.0 || (a.0 == b.0 && Below(b.1, a.1))
  }

  lemma BeforeIsStrictTotal()
    ensures StrictTotal(Before)
  {
    forall a: (nat, Term)
      ensures !Before(a, a)
    {
      BelowIrreflexive(a.1);
    }
    forall a: (nat, Term), b: (nat, Term), c: (nat, Term) | Before(a, b) && Before(b, c)
      ensures Before(a, c)
    {
      if Below(b.1, a.1) && Below(c.1, b.1) {
        BelowTransitive(c.1, b.1, a.1);
      }
    }
    forall a: (nat, Term), b: (nat, Term) | a != b
      ensures Before(a, b) || Before(b, a)
    {
      if a.1 != b.1 {
        BelowTotal(a.1, b.1);
      }
    }
  }

  function Min(a: int, b: int): int {
    if a < b then a else b
  }

  /** `[i[1] for i in words]` */
  function TermsOf(words: seq<(nat, Term)>): (r: seq<Term>)
    ensures |r| == |words| && forall i :: 0 <= i < |words| ==> r[i] == words[i].1
  {
    seq(|words|, i requires 0 <= i < |words| => words[i].1)
  }

  /** Some tuple of words carries u. */
  predicate Listed(words: seq<(nat, Term)>, u: Term) {
    exists e :: e in words && e.1 == u
  }

  /**
   * What the list of stopwords holds once the terms of seen have been
   * considered: the min(|seen|, size) tuples sorted, each a term of seen
   * with its postings count; a term of seen left out has no more postings
   * than any kept; and while fewer than size terms were seen, all are kept.
   */
  ghost predicate Chosen(words: seq<(nat, Term)>, seen: seq<Term>, lists: map<Term, seq<DocId>>, size: int) {
    && |words| == Min(|seen|, if size < 0 then 0 else size)
    && SortedBy(words, Before)
    && (forall e :: e in words ==> e.1 in seen && e.1 in lists && e.0 == |lists[e.1]|)
    && (forall u :: u in seen ==> u in lists)
    && (forall u, e :: u in seen && !Listed(words, u) && e in words ==> |lists[u]| <= e.0)
    && (|seen| < size ==> forall u :: u in seen ==> Listed(words, u))
  }

  /** The if-chain of the stopwords loop: append while short, else replace the last tuple if the new one has more postings. */
  function Admit(words: seq<(nat, Term)>, e: (nat, Term), size: int): seq<(nat, Term)>
    requires |words| < size || words != []
  {
    if |words| < size then words + [e]
    else if e.0 > words[|words| - 1].0 then words[..|words| - 1] + [e]
    else words
  }

  /** A sorted list has no repeats. */
  lemma SortedDistinct(words: seq<(nat, Term)>)
    requires SortedBy(words, Before)
    ensures Distinct(words)
  {
    forall i, j | 0 <= i < j < |words|
      ensures words[i] != words[j]
    {
      BelowIrreflexive(words[i].1);
    }
  }

  /** In a sorted list every tuple has at least the postings of the last. */
  lemma LastIsLeast(words: seq<(nat, Term)>, e: (nat, Term))
    requires SortedBy(words, Before) && e in words
    ensures e.0 >= words[|words| - 1].0
  {
    var i :| 0 <= i < |words| && words[i] == e;
    if i < |words| - 1 {
      assert Before(words[i], words[|words| - 1]);
    }
  }

  /** One turn of the stopwords loop keeps Chosen. */
  lemma ChosenStep(words: seq<(nat, Term)>, seen: seq<Term>, lists: map<Term, seq<DocId>>, size: int, t: Term)
    requires Chosen(words, seen, lists, size) && t in lists && t !in seen
    requires |words| < size || words != []
    ensures Chosen(SortBy(Admit(words, (|lists[t]|, t), size), Before), seen + [t], lists, size)
  {
    var e := (|lists[t]|, t);
    var next := Admit(words, e, size);
    SortedDistinct(words);
    assert e !in words;
    if |words| < size {
      ChosenAppend(words, seen, lists, size, t);
    } else if e.0 > words[|words| - 1].0 {
      ChosenReplace(words, seen, lists, size, t);
    } else {
      ChosenSkip(words, seen, lists, size, t);
    }
    BeforeIsStrictTotal();
    SortBySorts(next, Before);
    var sorted := SortBy(next, Before);
    assert forall x :: x in sorted <==> x in multiset(next);
    forall u | Listed(next, u)
      ensures Listed(sorted, u)
    {
      var x :| x in next && x.1 == u;
      assert x in sorted;
    }
    forall u | Listed(sorted, u)
      ensures Listed(next, u)
    {
      var x :| x in sorted && x.1 == u;
      assert x in next;
    }
  }

  /** Chosen for seen + [t], except sortedness, on a list with no repeats. */
  ghost predicate ChosenUnsorted(next: seq<(nat, Term)>, seen: seq<Term>, lists: map<Term, seq<DocId>>, size: int) {
    && Distinct(next)
    && |next| == Min(|seen|, if size < 0 then 0 else size)
    && (forall e :: e in next ==> e.1 in seen && e.1 in lists && e.0 == |lists[e.1]|)
    && (forall u :: u in seen ==> u in lists)
    && (forall u, e :: u in seen && !Listed(next, u) && e in next ==> |lists[u]| <= e.0)
    && (|seen| < size ==> forall u :: u in seen ==> Listed(next, u))
  }

  lemma ChosenAppend(words: seq<(nat, Term)>, seen: seq<Term>, lists: map<Term, seq<DocId>>, size: int, t: Term)
    requires Chosen(words, seen, lists, size) && t in lists && t !in seen && Distinct(words)
    requires |words| < size
    ensures ChosenUnsorted(words + [(|lists[t]|, t)], seen + [t], lists, size)
  {
    var e := (|lists[t]|, t);
    var next := words + [e];
    forall u | u in seen + [t]
      ensures Listed(next, u)
    {
      if u == t {
        assert e in next;
      } else {
        var x :| x in words && x.1 == u;
        assert x in next;
      }
    }
  }

  lemma ChosenReplace(words: seq<(nat, Term)>, seen: seq<Term>, lists: map<Term, seq<DocId>>, size: int, t: Term)
    requires Chosen(words, seen, lists, size) && t in lists && t !in seen && Distinct(words)
    requires size <= |words| && words != [] && |lists[t]| > words[|words| - 1].0
    ensures ChosenUnsorted(words[..|words| - 1] + [(|lists[t]|, t)], seen + [t], lists, size)
  {
    var e := (|lists[t]|, t);
    var last := words[|words| - 1];
    var next := words[..|words| - 1] + [e];
    assert forall x :: x in words[..|words| - 1] ==> x in words;
    assert Listed(next, t) by {
      assert e in next;
    }
    forall x | x in next
      ensures x.0 >= last.0
    {
      if x != e {
        LastIsLeast(words, x);
      }
    }
    forall u | u in seen && !Listed(next, u) && Listed(words, u)
      ensures u == last.1
    {
      var x :| x in words && x.1 == u;
    }
    assert Distinct(next) by {
      forall i, j | 0 <= i < j < |next|
        ensures next[i] != next[j]
      {
        if j < |next| - 1 {
          assert next[i] == words[i] && next[j] == words[j];
        }
      }
    }
  }

  lemma ChosenSkip(words: seq<(nat, Term)>, seen: seq<Term>, lists: map<Term, seq<DocId>>, size: int, t: Term)
    requires Chosen(words, seen, lists, size) && t in lists && t !in seen && Distinct(words)
    requires size <= |words| && words != [] && |lists[t]| <= words[|words| - 1].0
    ensures ChosenUnsorted(words, seen + [t], lists, size)
  {
    forall x | x in words
      ensures |lists[t]| <= x.0
    {
      LastIsLeast(words, x);
    }
  }

  /** At the end of the loop the kept terms are the most frequent ones, in non-increasing order. */
  lemma ChosenAreTop(words: seq<(nat, Term)>, keys: seq<Term>, lists: map<Term, seq<DocId>>, size: int)
    requires Chosen(words, keys, lists, size) && forall t :: t in lists <==> t in keys
    ensures Distinct(TermsOf(words)) && forall t :: t in TermsOf(words) ==> t in lists
    ensures forall i, j :: 0 <= i < j < |words| ==> |lists[words[i].1]| >= |lists[words[j].1]|
    ensures forall t, u :: t in TermsOf(words) && u in lists && u !in TermsOf(words) ==> |lists[u]| <= |lists[t]|
  {
    var terms := TermsOf(words);
    forall i, j | 0 <= i < j < |words|
      ensures terms[i] != terms[j] && |lists[words[i].1]| >= |lists[words[j].1]|
    {
      assert words[i] in words && words[j] in words;
      assert Before(words[i], words[j]);
      BelowIrreflexive(words[i].1);
    }
    forall t, u | t in terms && u in lists && u !in terms
      ensures |lists[u]| <= |lists[t]|
    {
      var i :| 0 <= i < |terms| && terms[i] == t;
      assert words[i] in words;
    }
  }

  /**
   * stopwords(index, size): the terms with the most postings, most first.
   * With size 0 or less, the first term already reads `words[-1]` of an
   * empty list, which raises IndexError.
   */
  method Stopwords(index: Index, size: int) returns (r: Result<seq<Term>, Raised>)
    requires index.Valid()
    ensures r.Err? <==> size <= 0 && |index.keys| > 0
    ensures r.Err? ==> r.error == IndexError
    ensures r.Ok? ==> |r.value| == Min(|index.keys|, if size < 0 then 0 else size)
    ensures r.Ok? ==> Distinct(r.value) && forall t :: t in r.value ==> t in index.lists
    ensures r.Ok? ==> forall i, j :: 0 <= i < j < |r.value| ==> |index.lists[r.value[i]]| >= |index.lists[r.value[j]]|
    ensures r.Ok? ==> forall t, u :: t in r.value && u in index.lists && u !in r.value ==> |index.lists[u]| <= |index.lists[t]|
  {
    var words: seq<(nat, Term)> := [];
    var k := 0;
    while k < |index.keys|
      invariant 0 <= k <= |index.keys|
      invariant k > 0 ==> size > 0
      invariant Chosen(words, index.keys[..k], index.lists, size)
    {
      var term := index.keys[k];
      var postings := |index.lists[term]|;
      ghost var before := words;
      if |words| < size {
        words := words + [(postings, term)];
      } else if words == [] {
        return Err(IndexError);
      } else if postings > words[|words| - 1].0 {
        words := words[..|words| - 1] + [(postings, term)];
      }
      assert words == Admit(before, (postings, term), size);
      NotEarlier(index.keys, k);
      ChosenStep(before, index.keys[..k], index.lists, size, term);
      words := SortBy(words, Before);
      TakeOneMore(index.keys, k);
      k := k + 1;
    }
    assert index.keys[..k] == index.keys;
    ChosenAreTop(words, index.keys, index.lists, size);
    r := Ok(TermsOf(words));
  }
}
