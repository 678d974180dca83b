/** The play listing shared by GET / of routes/playRoutes.js and `getPlays`
    of controllers/playController.js, which build the same filter
    dictionary: the filter, which plays it matches, the sort orders, the
    page count and the page window. Query strings arrive with what
    `new Date` or `parseInt` makes of them; the free-text search is given as
    the set of plays it matches. */
module PlayListing {
  import opened Wrappers
  import opened Text
  import opened UserModel
  import opened PlayModel

  datatype Query = Query(
    search: Option<string>,
    genre: Option<string>,
    fundingType: Option<string>,
    organizationType: Option<string>,
    pubDateFrom: Option<Coerced>,
    pubDateTo: Option<Coerced>,
    subDateFrom: Option<Coerced>,
    subDateTo: Option<Coerced>,
    minDuration: Option<Coerced>,
    maxDuration: Option<Coerced>,
    males: Option<Coerced>,
    females: Option<Coerced>,
    acts: Option<Coerced>)

  /** `{ $gte, $lte }`, either bound possibly absent. */
  datatype Range = Range(gte: Option<Coerced>, lte: Option<Coerced>)

  /** The `filters` dictionary; an absent key is `None`. `males` and
      `females` are `{ $gte: n }`, `acts` an equality. */
  datatype Filter = Filter(
    genre: Option<string>,
    funding: Option<string>,
    organizationType: Option<string>,
    publicationDate: Option<Range>,
    submissionDate: Option<Range>,
    duration: Option<Range>,
    males: Option<Coerced>,
    females: Option<Coerced>,
    acts: Option<Coerced>)

  /** A text key: present when its parameter is a non-empty string. */
  function TextKey(s: Option<string>): (r: Option<string>)
    ensures r.Some? <==> Truthy(s)
    ensures r.Some? ==> r == s
  {
    if Truthy(s) then s else None
  }

  /** A bound or a count key: present when its parameter is non-empty. */
  function BoundOf(c: Option<Coerced>): (r: Option<Coerced>)
    ensures r.Some? <==> Given(c)
    ensures r.Some? ==> r == c
  {
    if Given(c) then c else None
  }

  /** A range key: present when either parameter is supplied, `$gte` only
      from the lower one and `$lte` only from the upper one. */
  function RangeOf(from: Option<Coerced>, to: Option<Coerced>): (r: Option<Range>)
    ensures r.Some? <==> Given(from) || Given(to)
    ensures r.Some? ==> r.value.gte == BoundOf(from) && r.value.lte == BoundOf(to)
  {
    if Given(from) || Given(to) then Some(Range(BoundOf(from), BoundOf(to))) else None
  }

  /** The filter a query builds: each key only from its own parameters and
      only when they are supplied. */
  function FilterOf(q: Query): (f: Filter)
    ensures f.genre.Some? <==> Truthy(q.genre)
    ensures f.funding.Some? <==> Truthy(q.fundingType)
    ensures f.organizationType.Some? <==> Truthy(q.organizationType)
    ensures f.genre.Some? ==> f.genre == q.genre
    ensures f.funding.Some? ==> f.funding == q.fundingType
    ensures f.organizationType.Some? ==> f.organizationType == q.organizationType
    ensures f.publicationDate.Some? <==> Given(q.pubDateFrom) || Given(q.pubDateTo)
    ensures f.submissionDate.Some? <==> Given(q.subDateFrom) || Given(q.subDateTo)
    ensures f.duration.Some? <==> Given(q.minDuration) || Given(q.maxDuration)
    ensures f.males.Some? <==> Given(q.males)
    ensures f.females.Some? <==> Given(q.females)
    ensures f.acts.Some? <==> Given(q.acts)
    ensures f.males.Some? ==> f.males == q.males
    ensures f.females.Some? ==> f.females == q.females
    ensures f.acts.Some? ==> f.acts == q.acts
  {
    Filter(TextKey(q.genre), TextKey(q.fundingType), TextKey(q.organizationType),
           RangeOf(q.pubDateFrom, q.pubDateTo), RangeOf(q.subDateFrom, q.subDateTo),
           RangeOf(q.minDuration, q.maxDuration), BoundOf(q.males), BoundOf(q.females), BoundOf(q.acts))
  }

  /** Lines 74-96: the dictionary filled in by conditional assignments. */
  method BuildFilters(q: Query) returns (f: Filter)
    ensures f == FilterOf(q)
  {
    f := Filter(None, None, None, None, None, None, None, None, None);
    if Truthy(q.genre) { f := f.(genre := q.genre); }
    if Truthy(q.fundingType) { f := f.(funding := q.fundingType); }
    if Truthy(q.organizationType) { f := f.(organizationType := q.organizationType); }
    var publication := BuildRange(q.pubDateFrom, q.pubDateTo);
    var submission := BuildRange(q.subDateFrom, q.subDateTo);
    var duration := BuildRange(q.minDuration, q.maxDuration);
    f := f.(publicationDate := publication, submissionDate := submission, duration := duration);
    if Given(q.males) { f := f.(males := q.males); }
    if Given(q.females) { f := f.(females := q.females); }
    if Given(q.acts) { f := f.(acts := q.acts); }
  }

  /** One range key: the nested dictionary, created when either bound is
      supplied and given each supplied bound. */
  method BuildRange(from: Option<Coerced>, to: Option<Coerced>) returns (r: Option<Range>)
    ensures r == RangeOf(from, to)
  {
    r := None;
    if Given(from) || Given(to) {
      var range := Range(None, None);
      if Given(from) { range := range.(gte := from); }
      if Given(to) { range := range.(lte := to); }
      r := Some(range);
    }
  }

  /** Every value in the filter is a number or a valid date; otherwise
      Mongoose's cast fails and the request ends in a 500. */
  predicate RangeCastable(r: Option<Range>) {
    r.Some? ==> (r.value.gte.Some? ==> r.value.gte.value.value.Some?) && (r.value.lte.Some? ==> r.value.lte.value.value.Some?)
  }

  predicate Castable(f: Filter) {
    RangeCastable(f.publicationDate) && RangeCastable(f.submissionDate) && RangeCastable(f.duration)
    && (f.males.Some? ==> f.males.value.value.Some?)
    && (f.females.Some? ==> f.females.value.value.Some?)
    && (f.acts.Some? ==> f.acts.value.value.Some?)
  }

  /** A stored value within a range; comparisons never match a missing value. */
  predicate InRange(v: Option<int>, r: Option<Range>)
    requires RangeCastable(r)
  {
    r.None? ||
      (v.Some?
       && (r.value.gte.Some? ==> r.value.gte.value.value.value <= v.value)
       && (r.value.lte.Some? ==> v.value <= r.value.lte.value.value.value))
  }

  /** The plays `Play.find(filters)` returns. */
  predicate Matches(f: Filter, p: Play)
    requires Castable(f)
  {
    (f.genre.Some? ==> p.genre == f.genre)
    && (f.funding.Some? ==> p.funding == f.funding)
    && (f.organizationType.Some? ==> p.organizationType == f.organizationType)
    && InRange(p.publicationDate, f.publicationDate)
    && InRange(p.submissionDate, f.submissionDate)
    && InRange(p.duration, f.duration)
    && (f.males.Some? ==> p.males.Some? && p.males.value >= f.males.value.value.value)
    && (f.females.Some? ==> p.females.Some? && p.females.value >= f.females.value.value.value)
    && (f.acts.Some? ==> p.acts == f.acts.value.value)
  }

  /** A query without parameters matches every play. */
  lemma EmptyQueryMatchesAll(f: Filter, p: Play)
    requires f == Filter(None, None, None, None, None, None, None, None, None)
    ensures Castable(f) && Matches(f, p)
  {
  }

  /** A stored play together with its id. */
  datatype Entry = Entry(id: Id, play: Play)

  /** `ids` lists every stored play exactly once, in the collection's natural order. */
  predicate Enumerates(ids: seq<Id>, plays: map<Id, Play>) {
    (forall id :: id in plays ==> id in ids)
    && (forall i :: 0 <= i < |ids| ==> ids[i] in plays)
    && (forall i, j :: 0 <= i < j < |ids| ==> ids[i] != ids[j])
  }

  /** A play the query keeps: it matches the filter and, when there is a
      search, the search. */
  predicate Kept(f: Filter, hits: Option<set<Id>>, e: Entry)
    requires Castable(f)
  {
    Matches(f, e.play) && (hits.Some? ==> e.id in hits.value)
  }

  /** No play appears twice. */
  predicate DistinctIds(s: seq<Entry>) {
    forall i, j :: 0 <= i < j < |s| ==> s[i].id != s[j].id
  }

  /** The kept plays, in the order `ids` lists them, each once. */
  function Select(ids: seq<Id>, plays: map<Id, Play>, f: Filter, hits: Option<set<Id>>): (r: seq<Entry>)
    requires Castable(f)
    requires forall i :: 0 <= i < |ids| ==> ids[i] in plays
    ensures |r| <= |ids|
    ensures forall e :: e in r <==> e.id in ids && e.play == plays[e.id] && Kept(f, hits, e)
    ensures (forall i, j :: 0 <= i < j < |ids| ==> ids[i] != ids[j]) ==> DistinctIds(r)
  {
    if ids == [] then []
    else
      var rest := Select(ids[1..], plays, f, hits);
      var e := Entry(ids[0], plays[ids[0]]);
      assert forall id :: id in ids <==> id == ids[0] || id in ids[1..];
      if Kept(f, hits, e) then
        assert (forall i, j :: 0 <= i < j < |ids| ==> ids[i] != ids[j]) ==> DistinctIds([e] + rest) by {
          if forall i, j :: 0 <= i < j < |ids| ==> ids[i] != ids[j] {
            assert forall k :: 0 <= k < |rest| ==> rest[k] in rest && rest[k].id in ids[1..];
            assert ids[0] !in ids[1..];
          }
        }
        [e] + rest
      else rest
  }

  /** The search's own matches when there is a search. */
  function SearchHits(search: Option<string>, hits: set<Id>): (r: Option<set<Id>>)
    ensures r.Some? <==> Truthy(search)
    ensures r.Some? ==> r.value == hits
  {
    if Truthy(search) then Some(hits) else None
  }

  /** The two sort orders: `{ title: 1 }` and `{ createdAt: -1 }`. */
  datatype SortKey = ByTitle | ByNewest

  /** Lexicographic order of texts by code point, which is the order of
      their UTF-8 bytes that MongoDB compares. */
  predicate LexLeq(a: string, b: string)
    decreases |a|
  {
    a == [] || (b != [] && (a[0] < b[0] || (a[0] == b[0] && LexLeq(a[1..], b[1..]))))
  }

  lemma {:induction false} LexTotal(a: string, b: string)
    ensures LexLeq(a, b) || LexLeq(b, a)
    decreases |a|
  {
    if a != [] && b != [] && a[0] == b[0] {
      LexTotal(a[1..], b[1..]);
    }
  }

  lemma {:induction false} LexTransitive(a: string, b: string, c: string)
    requires LexLeq(a, b) && LexLeq(b, c)
    ensures LexLeq(a, c)
    decreases |a|
  {
    if a != [] && a[0] == b[0] && b[0] == c[0] {
      LexTransitive(a[1..], b[1..], c[1..]);
    }
  }

  /** A play `p` may come before `q`: a missing title sorts first. */
  predicate Before(k: SortKey, p: Play, q: Play) {
    match k
    case ByTitle => p.title.None? || (q.title.Some? && LexLeq(p.title.value, q.title.value))
    case ByNewest => p.createdAt >= q.createdAt
  }

  lemma BeforeTotal(k: SortKey, p: Play, q: Play)
    ensures Before(k, p, q) || Before(k, q, p)
  {
    if k == ByTitle && p.title.Some? && q.title.Some? {
      LexTotal(p.title.value, q.title.value);
    }
  }

  lemma BeforeTransitive(k: SortKey, p: Play, q: Play, r: Play)
    requires Before(k, p, q) && Before(k, q, r)
    ensures Before(k, p, r)
  {
    if k == ByTitle && p.title.Some? {
      LexTransitive(p.title.value, q.title.value, r.title.value);
    }
  }

  /** Each play may come before the next one. */
  predicate Ordered(k: SortKey, s: seq<Entry>) {
    forall i :: 0 < i < |s| ==> Before(k, s[i - 1].play, s[i].play)
  }

  /** Ordered adjacently means ordered between any two positions. */
  lemma {:induction false} OrderedPairwise(k: SortKey, s: seq<Entry>, i: nat, j: nat)
    requires Ordered(k, s) && i <= j < |s|
    ensures i == j || Before(k, s[i].play, s[j].play)
    decreases j - i
  {
    if i < j && i + 1 < j {
      OrderedPairwise(k, s, i + 1, j);
      BeforeTransitive(k, s[i].play, s[i + 1].play, s[j].play);
    }
  }

  function Insert(k: SortKey, e: Entry, s: seq<Entry>): (r: seq<Entry>)
    requires Ordered(k, s)
    ensures multiset(r) == multiset(s) + multiset{e}
    ensures |r| == |s| + 1 && (r[0] == e || (s != [] && r[0] == s[0]))
    ensures Ordered(k, r)
  {
    if s == [] then [e]
    else if Before(k, e.play, s[0].play) then [e] + s
    else
      var rest := Insert(k, e, s[1..]);
      BeforeTotal(k, e.play, s[0].play);
      assert s == [s[0]] + s[1..];
      assert Before(k, s[0].play, rest[0].play);
      [s[0]] + rest
  }

  /** Insertion sort: the same plays, ordered. */
  function Sort(k: SortKey, s: seq<Entry>): (r: seq<Entry>)
    ensures multiset(r) == multiset(s) && |r| == |s|
    ensures Ordered(k, r)
  {
    if s == [] then []
    else
      assert s == [s[0]] + s[1..];
      Insert(k, s[0], Sort(k, s[1..]))
  }

  /** `Math.ceil(total / limit)`: a count, or Infinity or NaN when the
      limit is 0. */
  datatype Pages = Finite(n: int) | Infinity | NaN

  function TotalPages(total: nat, limit: int): (r: Pages)
    ensures limit > 0 && total == 0 ==> r == Finite(0)
    ensures limit > 0 && total > 0 ==> r.Finite? && (r.n - 1) * limit < total <= r.n * limit
    ensures limit == 0 ==> r == (if total == 0 then NaN else Infinity)
  {
    if limit == 0 then (if total == 0 then NaN else Infinity)
    else if limit > 0 then Finite((total + limit - 1) / limit)
    else Finite(-(total / -limit))
  }

  /** `pageNum < totalPages`. */
  predicate HasNextPage(page: int, pages: Pages) {
    match pages
    case Finite(n) => page < n
    case Infinity => true
    case NaN => false
  }

  /** With a positive limit, there is a next page exactly when plays remain
      after this page. */
  lemma NextPageIffMoreResults(page: int, total: nat, limit: int)
    requires limit > 0
    ensures HasNextPage(page, TotalPages(total, limit)) <==> page * limit < total
  {
    var n := TotalPages(total, limit).n;
    if page < n {
      assert page <= n - 1;
      assert page * limit <= (n - 1) * limit by {
        MultiplyMonotone(page, n - 1, limit);
      }
    } else {
      assert n <= page;
      assert n * limit <= page * limit by {
        MultiplyMonotone(n, page, limit);
      }
    }
  }

  lemma MultiplyMonotone(a: int, b: int, c: int)
    requires a <= b && c > 0
    ensures a * c <= b * c
  {
  }

  /** The number of results `.limit(limit)` allows: 0 means no limit and a
      negative limit counts as its absolute value. */
  function Abs(limit: int): nat {
    if limit < 0 then -limit else limit
  }

  /** `.skip(skip).limit(limit)` applied to the sorted results. */
  function Window(s: seq<Entry>, skip: nat, limit: int): (r: seq<Entry>)
    ensures |r| == (if skip >= |s| then 0
                    else if limit == 0 || |s| - skip <= Abs(limit) then |s| - skip
                    else Abs(limit))
    ensures forall i :: 0 <= i < |r| ==> r[i] == s[skip + i]
  {
    var start := if skip <= |s| then skip else |s|;
    var n := if limit == 0 then |s| else Abs(limit);
    var end := if start + n <= |s| then start + n else |s|;
    s[start..end]
  }

  /** With a positive limit, the result at position `i` is on page
      `i / limit + 1`, one of the `totalPages` pages, at its place in that
      page's window. */
  lemma EveryResultOnAPage(s: seq<Entry>, limit: int, i: nat)
    requires limit > 0 && i < |s|
    ensures var p := i / limit + 1;
            1 <= p <= TotalPages(|s|, limit).n
            && var w := Window(s, (p - 1) * limit, limit);
               0 <= i - (p - 1) * limit < |w| && w[i - (p - 1) * limit] == s[i]
  {
    var q := i / limit;
    var offset := i % limit;
    assert i == q * limit + offset && 0 <= offset < limit;
  }

  /** Each entry occurs at most once in a list of distinct plays. */
  lemma {:induction false} AtMostOnce(s: seq<Entry>, x: Entry)
    requires DistinctIds(s)
    ensures multiset(s)[x] <= 1
  {
    if s != [] {
      assert s == [s[0]] + s[1..];
      AtMostOnce(s[1..], x);
      if s[0] == x {
        assert forall k :: 1 <= k < |s| ==> s[k].id != s[0].id;
        assert x !in s[1..];
      }
    }
  }

  /** An entry at two positions occurs at least twice. */
  lemma Twice(t: seq<Entry>, i: nat, j: nat)
    requires i < j < |t| && t[i] == t[j]
    ensures multiset(t)[t[i]] >= 2
  {
    assert t == t[..j] + t[j..];
    assert t[i] in t[..j] && t[j] in t[j..];
    assert multiset(t) == multiset(t[..j]) + multiset(t[j..]);
  }

  /** A rearrangement of distinct plays holds no entry twice. */
  lemma PermutationKeepsDistinct(s: seq<Entry>, t: seq<Entry>)
    requires multiset(s) == multiset(t) && DistinctIds(s)
    ensures forall i, j :: 0 <= i < j < |t| ==> t[i] != t[j]
  {
    forall i, j | 0 <= i < j < |t|
      ensures t[i] != t[j]
    {
      if t[i] == t[j] {
        Twice(t, i, j);
        AtMostOnce(s, t[i]);
      }
    }
  }

  /** The window of an ordering of the kept plays holds only kept plays,
      each once, in order. */
  lemma WindowOfSorted(key: SortKey, kept: seq<Entry>, sorted: seq<Entry>, skip: nat, limit: int)
    requires multiset(sorted) == multiset(kept) && Ordered(key, sorted) && DistinctIds(kept)
    ensures var w := Window(sorted, skip, limit);
            (forall i :: 0 <= i < |w| ==> w[i] in kept)
            && DistinctIds(w) && Ordered(key, w)
  {
    var w := Window(sorted, skip, limit);
    forall i | 0 <= i < |w|
      ensures w[i] in kept
    {
      assert w[i] == sorted[skip + i] && sorted[skip + i] in multiset(sorted);
    }
    PermutationKeepsDistinct(kept, sorted);
    forall i, j | 0 <= i < j < |w|
      ensures w[i].id != w[j].id
    {
      assert w[i] == sorted[skip + i] && w[j] == sorted[skip + j];
      var a :| 0 <= a < |kept| && kept[a] == w[i];
      var b :| 0 <= b < |kept| && kept[b] == w[j];
      assert a != b;
    }
    forall i | 0 < i < |w|
      ensures Before(key, w[i - 1].play, w[i].play)
    {
      assert w[i - 1] == sorted[skip + i - 1] && w[i] == sorted[skip + i];
    }
  }

  /** One page of the listing: the kept plays in `key` order, the window of
      them, formatted. Every play shown is stored and kept, at most once, in
      order, and no more than the limit allows. */
  function PageOf(users: map<Id, User>, ids: seq<Id>, plays: map<Id, Play>, f: Filter, hits: Option<set<Id>>,
                  key: SortKey, skip: nat, limit: int): (r: seq<Listed>)
    requires Castable(f) && Enumerates(ids, plays)
    ensures limit != 0 ==> |r| <= Abs(limit)
    ensures forall i :: 0 <= i < |r| ==>
              r[i].id in plays && r[i].play == plays[r[i].id] && Kept(f, hits, Entry(r[i].id, r[i].play))
              && r[i] == Format(users, r[i].id, r[i].play)
    ensures forall i :: 0 < i < |r| ==> Before(key, r[i - 1].play, r[i].play)
    ensures forall i, j :: 0 <= i < j < |r| ==> r[i].id != r[j].id
    ensures var n := |Select(ids, plays, f, hits)|;
            |r| == (if skip >= n then 0 else if limit == 0 || n - skip <= Abs(limit) then n - skip else Abs(limit))
    ensures exists s :: multiset(s) == multiset(Select(ids, plays, f, hits)) && Ordered(key, s)
                        && r == FormatAll(users, Window(s, skip, limit))
  {
    var kept := Select(ids, plays, f, hits);
    var sorted := Sort(key, kept);
    WindowOfSorted(key, kept, sorted, skip, limit);
    FormatAll(users, Window(sorted, skip, limit))
  }

  /** The formatted plays of a page, in order. */
  function FormatAll(users: map<Id, User>, es: seq<Entry>): (r: seq<Listed>)
    ensures |r| == |es|
    ensures forall i :: 0 <= i < |es| ==> r[i] == Format(users, es[i].id, es[i].play)
  {
    if es == [] then [] else [Format(users, es[0].id, es[0].play)] + FormatAll(users, es[1..])
  }
}
