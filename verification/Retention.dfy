/** Which runs a cleanup keeps, which it deletes, and where it can stop half-way. */
module Retention {
  import opened Common
  import opened Ordering
  import opened RunIndex

  // ---------------------------------------------------------------------------
  // Orders
  // ---------------------------------------------------------------------------

  predicate StrLeq(a: string, b: string) {
    if a == [] then true
    else if b == [] then false
    else if a[0] != b[0] then a[0] < b[0]
    else StrLeq(a[1..], b[1..])
  }

  datatype Key = Key(createdAt: string, id: string)

  /** Newest first: (created_at, run_id) in descending order. */
  predicate Newer(a: Key, b: Key) {
    if a.createdAt != b.createdAt then StrLeq(b.createdAt, a.createdAt) else StrLeq(b.id, a.id)
  }

  function ById(): (string, string) -> bool {
    (a: string, b: string) => StrLeq(a, b)
  }

  function NewestFirst(): (Key, Key) -> bool {
    (a: Key, b: Key) => Newer(a, b)
  }

  lemma {:induction false} StrLeqTotal(a: string, b: string)
    ensures StrLeq(a, b) || StrLeq(b, a)
    ensures StrLeq(a, b) && StrLeq(b, a) ==> a == b
  {
    if a != [] && b != [] {
      StrLeqTotal(a[1..], b[1..]);
      assert a == [a[0]] + a[1..] && b == [b[0]] + b[1..];
    }
  }

  lemma {:induction false} StrLeqTransitive(a: string, b: string, c: string)
    requires StrLeq(a, b) && StrLeq(b, c)
    ensures StrLeq(a, c)
  {
    if a != [] && a[0] == b[0] == c[0] {
      StrLeqTransitive(a[1..], b[1..], c[1..]);
    }
  }

  /** Character order: at the first difference a has the smaller character, or a is a proper prefix of b. */
  ghost predicate Below(a: string, b: string) {
    exists k :: SplitAt(a, b, k)
  }

  ghost predicate SplitAt(a: string, b: string, k: nat) {
    && k <= |a| && k < |b| && a[..k] == b[..k]
    && (k < |a| ==> a[k] < b[k])
  }

  lemma {:induction false} StrLeqIffBelow(a: string, b: string)
    ensures StrLeq(a, b) <==> a == b || Below(a, b)
  {
    if a == [] {
      assert b != [] ==> SplitAt(a, b, 0);
    } else if b != [] {
      assert a == [a[0]] + a[1..] && b == [b[0]] + b[1..];
      StrLeqIffBelow(a[1..], b[1..]);
      if a[0] < b[0] {
        assert SplitAt(a, b, 0);
      }
      if a[0] == b[0] {
        if k: nat :| SplitAt(a[1..], b[1..], k) {
          assert a[..k + 1] == [a[0]] + a[1..][..k] && b[..k + 1] == [b[0]] + b[1..][..k];
          assert SplitAt(a, b, k + 1);
        }
      }
      if k: nat :| SplitAt(a, b, k) {
        if k > 0 {
          assert a[..k][0] == a[0] && b[..k][0] == b[0];
          assert a[1..][..k - 1] == a[..k][1..] && b[1..][..k - 1] == b[..k][1..];
          assert SplitAt(a[1..], b[1..], k - 1);
        }
      }
    }
  }

  lemma ByIdIsOrder()
    ensures TotalPreorder(ById()) && Antisymmetric(ById())
  {
    forall a: string, b: string ensures ById()(a, b) || ById()(b, a) { StrLeqTotal(a, b); }
    forall a: string, b: string | ById()(a, b) && ById()(b, a) ensures a == b { StrLeqTotal(a, b); }
    forall a: string, b: string, c: string | ById()(a, b) && ById()(b, c) ensures ById()(a, c) {
      StrLeqTransitive(a, b, c);
    }
  }

  lemma NewerTransitive(a: Key, b: Key, c: Key)
    requires Newer(a, b) && Newer(b, c)
    ensures Newer(a, c)
  {
    if a.createdAt == b.createdAt == c.createdAt {
      StrLeqTransitive(c.id, b.id, a.id);
    } else {
      StrLeqTotal(a.createdAt, c.createdAt);
      StrLeqTotal(b.createdAt, c.createdAt);
      StrLeqTotal(a.createdAt, b.createdAt);
      if a.createdAt != b.createdAt && b.createdAt != c.createdAt {
        StrLeqTransitive(c.createdAt, b.createdAt, a.createdAt);
      }
    }
  }

  lemma NewestFirstIsOrder()
    ensures TotalPreorder(NewestFirst()) && Antisymmetric(NewestFirst())
  {
    forall a: Key, b: Key
      ensures NewestFirst()(a, b) || NewestFirst()(b, a)
      ensures NewestFirst()(a, b) && NewestFirst()(b, a) ==> a == b
    {
      StrLeqTotal(a.createdAt, b.createdAt);
      StrLeqTotal(a.id, b.id);
    }
    forall a: Key, b: Key, c: Key | NewestFirst()(a, b) && NewestFirst()(b, c) ensures NewestFirst()(a, c) {
      NewerTransitive(a, b, c);
    }
  }

  // ---------------------------------------------------------------------------
  // Sorted listing of a finite set
  // ---------------------------------------------------------------------------

  ghost function Listing<T(!new)>(s: set<T>): (r: seq<T>)
    ensures multiset(r) == multiset(s)
  {
    if s == {} then []
    else
      var x :| x in s;
      assert s == {x} + (s - {x});
      [x] + Listing(s - {x})
  }

  /** The one sorted listing of a set. */
  ghost function SortedListing<T(!new)>(s: set<T>, leq: (T, T) -> bool): seq<T> {
    Sort(Listing(s), leq)
  }

  lemma SortedListingUnique<T(!new)>(s: set<T>, r: seq<T>, leq: (T, T) -> bool)
    requires TotalPreorder(leq) && Antisymmetric(leq)
    requires multiset(r) == multiset(s) && Sorted(r, leq)
    ensures r == SortedListing(s, leq)
  {
    SortSorted(Listing(s), leq);
    SortedUnique(r, SortedListing(s, leq), leq);
  }

  lemma ListingMembers<T(!new)>(s: set<T>, r: seq<T>)
    requires multiset(r) == multiset(s)
    ensures forall x :: x in r <==> x in s
    ensures |r| == |s|
    ensures forall i, j :: 0 <= i < j < |r| ==> r[i] != r[j]
  {
    forall x ensures x in r <==> x in s { assert x in multiset(r) <==> x in multiset(s); }
    assert |r| == |multiset(r)| == |multiset(s)| == |s|;
    forall i, j | 0 <= i < j < |r| ensures r[i] != r[j] {
      DuplicateCounts(r, i, j);
      assert multiset(s)[r[i]] <= 1;
    }
  }

  // ---------------------------------------------------------------------------
  // The plan
  // ---------------------------------------------------------------------------

  /** What retention looks at in one run. */
  datatype Header = Header(createdAt: string, status: Status, pinned: bool)

  type Headers = map<string, Header>

  function KeysOf(hs: Headers): (keys: set<Key>)
    ensures forall k :: k in keys <==> k.id in hs && k.createdAt == hs[k.id].createdAt
  {
    set id | id in hs :: Key(hs[id].createdAt, id)
  }

  function PinnedIds(hs: Headers, pinnedDir: set<string>): set<string> {
    set id | id in hs && (hs[id].pinned || id in pinnedDir)
  }

  ghost function Ranking(hs: Headers): seq<Key> {
    SortedListing(KeysOf(hs), NewestFirst())
  }

  function IdsIn(keys: seq<Key>): set<string> {
    set k | k in keys :: k.id
  }

  ghost function NewestIds(hs: Headers, keep: nat): set<string> {
    IdsIn(Ranking(hs)[..Min(keep, |Ranking(hs)|)])
  }

  ghost function Retained(hs: Headers, keep: nat, pinnedDir: set<string>): set<string> {
    PinnedIds(hs, pinnedDir) + NewestIds(hs, keep)
  }

  /** The runs to delete, in the order in which they are deleted. */
  ghost function Planned(hs: Headers, keep: nat, pinnedDir: set<string>): seq<string> {
    SortedListing(hs.Keys - Retained(hs, keep, pinnedDir), ById())
  }

  /** Number of planned runs deleted before one that is still registering stops the pass. */
  function DeletedCount(hs: Headers, planned: seq<string>): (n: nat)
    ensures n <= |planned|
    ensures forall i :: 0 <= i < n ==> planned[i] in hs ==> hs[planned[i]].status != Registering
    ensures n < |planned| ==> planned[n] in hs && hs[planned[n]].status == Registering
  {
    if planned == [] then 0
    else if planned[0] in hs && hs[planned[0]].status == Registering then 0
    else 1 + DeletedCount(hs, planned[1..])
  }

  ghost predicate Aborts(hs: Headers, keep: nat, pinnedDir: set<string>) {
    DeletedCount(hs, Planned(hs, keep, pinnedDir)) < |Planned(hs, keep, pinnedDir)|
  }

  lemma RankingFacts(hs: Headers)
    ensures Sorted(Ranking(hs), NewestFirst())
    ensures multiset(Ranking(hs)) == multiset(KeysOf(hs))
    ensures forall k :: k in Ranking(hs) <==> k in KeysOf(hs)
    ensures |Ranking(hs)| == |hs|
    ensures forall i, j :: 0 <= i < j < |Ranking(hs)| ==> Ranking(hs)[i].id != Ranking(hs)[j].id
  {
    NewestFirstIsOrder();
    SortSorted(Listing(KeysOf(hs)), NewestFirst());
    ListingMembers(KeysOf(hs), Ranking(hs));
    KeyCount(hs);
    var r := Ranking(hs);
    forall i, j | 0 <= i < j < |r| ensures r[i].id != r[j].id {
      assert r[i] in KeysOf(hs) && r[j] in KeysOf(hs);
    }
  }

  lemma {:induction false} KeyCount(hs: Headers)
    ensures |KeysOf(hs)| == |hs|
    decreases |hs|
  {
    if hs != map[] {
      var id :| id in hs;
      var rest := hs - {id};
      KeyCount(rest);
      assert KeysOf(hs) == KeysOf(rest) + {Key(hs[id].createdAt, id)};
      assert Key(hs[id].createdAt, id) !in KeysOf(rest);
      assert rest.Keys == hs.Keys - {id};
    }
  }

  lemma DistinctIdsCount(keys: seq<Key>)
    requires forall i, j :: 0 <= i < j < |keys| ==> keys[i].id != keys[j].id
    ensures |IdsIn(keys)| == |keys|
    decreases |keys|
  {
    if keys != [] {
      var n := |keys| - 1;
      DistinctIdsCount(keys[..n]);
      assert keys == keys[..n] + [keys[n]];
      assert IdsIn(keys) == IdsIn(keys[..n]) + {keys[n].id};
    }
  }

  lemma PlannedFacts(hs: Headers, keep: nat, pinnedDir: set<string>)
    ensures Sorted(Planned(hs, keep, pinnedDir), ById())
    ensures forall i, j :: 0 <= i < j < |Planned(hs, keep, pinnedDir)| ==>
              Below(Planned(hs, keep, pinnedDir)[i], Planned(hs, keep, pinnedDir)[j])
    ensures multiset(Planned(hs, keep, pinnedDir)) == multiset(hs.Keys - Retained(hs, keep, pinnedDir))
    ensures forall id :: id in Planned(hs, keep, pinnedDir) <==> id in hs && id !in Retained(hs, keep, pinnedDir)
    ensures forall i, j :: 0 <= i < j < |Planned(hs, keep, pinnedDir)| ==>
              Planned(hs, keep, pinnedDir)[i] != Planned(hs, keep, pinnedDir)[j]
  {
    ByIdIsOrder();
    var s := hs.Keys - Retained(hs, keep, pinnedDir);
    SortSorted(Listing(s), ById());
    var planned := Planned(hs, keep, pinnedDir);
    ListingMembers(s, planned);
    forall i, j | 0 <= i < j < |planned| ensures Below(planned[i], planned[j]) {
      assert ById()(planned[i], planned[j]);
      StrLeqIffBelow(planned[i], planned[j]);
    }
  }

  /**
   * Planned and retained partition the runs; retained are the pinned runs and the newest ones: as many as asked
   * for, and every other run has a smaller creation time in character order, or the same and a smaller id.
   */
  lemma PlanPartition(hs: Headers, keep: nat, pinnedDir: set<string>)
    ensures Retained(hs, keep, pinnedDir) <= hs.Keys
    ensures forall id :: id in hs <==>
              (id in Planned(hs, keep, pinnedDir)) != (id in Retained(hs, keep, pinnedDir))
    ensures forall id :: id in Retained(hs, keep, pinnedDir) <==>
              id in NewestIds(hs, keep) || (id in hs && (hs[id].pinned || id in pinnedDir))
    ensures NewestIds(hs, keep) <= hs.Keys && |NewestIds(hs, keep)| == Min(keep, |hs|)
    ensures forall a, b :: a in NewestIds(hs, keep) && b in hs && b !in NewestIds(hs, keep) ==>
              Below(hs[b].createdAt, hs[a].createdAt) || (hs[b].createdAt == hs[a].createdAt && Below(b, a))
  {
    RankingFacts(hs);
    PlannedFacts(hs, keep, pinnedDir);
    var r := Ranking(hs);
    var n := Min(keep, |r|);
    DistinctIdsCount(r[..n]);
    forall id | id in NewestIds(hs, keep) ensures id in hs {
      var k :| k in r[..n] && k.id == id;
      assert k in r;
    }
    forall a, b | a in NewestIds(hs, keep) && b in hs && b !in NewestIds(hs, keep)
      ensures Below(hs[b].createdAt, hs[a].createdAt) || (hs[b].createdAt == hs[a].createdAt && Below(b, a))
    {
      NewestBeforeRest(hs, n, a, b);
      StrLeqIffBelow(hs[b].createdAt, hs[a].createdAt);
      StrLeqIffBelow(b, a);
    }
  }

  /** A pass stops half-way exactly when some run it does not retain is still registering. */
  lemma AbortsIff(hs: Headers, keep: nat, pinnedDir: set<string>)
    ensures Aborts(hs, keep, pinnedDir)
      <==> exists id :: id in hs && id !in Retained(hs, keep, pinnedDir) && hs[id].status == Registering
  {
    hide Retained, Planned;
    PlannedFacts(hs, keep, pinnedDir);
    var planned := Planned(hs, keep, pinnedDir);
    var n := DeletedCount(hs, planned);
    if n < |planned| {
      assert planned[n] in planned;
    } else {
      forall id | id in hs && id !in Retained(hs, keep, pinnedDir) ensures hs[id].status != Registering {
        var k :| 0 <= k < |planned| && planned[k] == id;
      }
    }
  }

  lemma RankOf(hs: Headers, id: string) returns (i: nat)
    requires id in hs
    ensures i < |Ranking(hs)| && Ranking(hs)[i] == Key(hs[id].createdAt, id)
  {
    RankingFacts(hs);
    assert Key(hs[id].createdAt, id) in Ranking(hs);
    i :| 0 <= i < |Ranking(hs)| && Ranking(hs)[i] == Key(hs[id].createdAt, id);
  }

  lemma RankInPrefix(keys: seq<Key>, n: nat, i: nat)
    requires n <= |keys| && i < |keys|
    ensures i < n ==> keys[i].id in IdsIn(keys[..n])
  {
    if i < n { assert keys[..n][i] == keys[i]; }
  }

  lemma PrefixRank(keys: seq<Key>, n: nat, id: string) returns (i: nat)
    requires n <= |keys| && id in IdsIn(keys[..n])
    ensures i < n && keys[i].id == id
  {
    var k :| k in keys[..n] && k.id == id;
    i :| 0 <= i < n && keys[..n][i] == k;
  }

  lemma NewestBeforeRest(hs: Headers, n: nat, a: string, b: string)
    requires n <= |Ranking(hs)| && a in IdsIn(Ranking(hs)[..n])
    requires b in hs && b !in IdsIn(Ranking(hs)[..n])
    ensures a in hs && Newer(Key(hs[a].createdAt, a), Key(hs[b].createdAt, b))
  {
    hide Ranking, IdsIn;
    RankingFacts(hs);
    var i := PrefixRank(Ranking(hs), n, a);
    var j := RankOf(hs, b);
    RankInPrefix(Ranking(hs), n, j);
    assert Ranking(hs)[i] in Ranking(hs);
    assert NewestFirst()(Ranking(hs)[i], Ranking(hs)[j]);
  }

  function Restrict(hs: Headers, kept: set<string>): (less: Headers)
    ensures less.Keys == hs.Keys * kept
    ensures forall id :: id in less ==> less[id] == hs[id]
  {
    map id | id in hs && id in kept :: hs[id]
  }

  function KeptKey(kept: set<string>): Key -> bool {
    (k: Key) => k.id in kept
  }

  lemma PrefixKept(r: seq<Key>, n: nat, kept: set<string>)
    requires n <= |r| && IdsIn(r[..n]) <= kept
    ensures n <= |Filter(r, KeptKey(kept))|
    ensures Filter(r, KeptKey(kept))[..n] == r[..n]
  {
    assert r == r[..n] + r[n..];
    FilterConcat(r[..n], r[n..], KeptKey(kept));
    forall k | k in r[..n] ensures KeptKey(kept)(k) { assert k.id in IdsIn(r[..n]); }
    FilterAll(r[..n], KeptKey(kept));
  }

  lemma IdsInPrefix(a: seq<Key>, n: nat, m: nat)
    requires n <= m <= |a|
    ensures IdsIn(a[..n]) <= IdsIn(a[..m])
  {
    forall id | id in IdsIn(a[..n]) ensures id in IdsIn(a[..m]) {
      var k :| k in a[..n] && k.id == id;
      var i :| 0 <= i < n && a[i] == k;
      assert a[..m][i] == k;
    }
  }

  /** Keeping a subset that contains the newest ids leaves the newest ids what they were. */
  lemma NewestOfSubset(hs: Headers, keep: nat, kept: set<string>)
    requires NewestIds(hs, keep) <= kept
    ensures NewestIds(hs, keep) <= NewestIds(Restrict(hs, kept), keep)
  {
    hide Ranking, Filter, IdsIn;
    var r, rest := Ranking(hs), Ranking(Restrict(hs, kept));
    var n, m := Min(keep, |r|), Min(keep, |rest|);
    RankingOfSubset(hs, kept);
    PrefixKept(r, n, kept);
    IdsInPrefix(rest, n, m);
  }

  lemma {:induction false} FilterBag<T(!new)>(s: seq<T>, keep: T -> bool)
    ensures forall x :: multiset(Filter(s, keep))[x] == if keep(x) then multiset(s)[x] else 0
  {
    if s != [] {
      FilterBag(s[1..], keep);
      assert s == [s[0]] + s[1..];
    }
  }

  lemma {:induction false} FilterSorted<T(!new)>(s: seq<T>, leq: (T, T) -> bool, keep: T -> bool)
    requires Sorted(s, leq)
    ensures Sorted(Filter(s, keep), leq)
  {
    if s != [] {
      FilterSorted(s[1..], leq, keep);
      var f := Filter(s[1..], keep);
      forall j | 0 <= j < |f| ensures leq(s[0], f[j]) {
        assert f[j] in s[1..];
        var k :| 0 <= k < |s| - 1 && s[1..][k] == f[j];
        assert leq(s[0], s[k + 1]);
      }
    }
  }

  lemma RankingOfSubset(hs: Headers, kept: set<string>)
    ensures Ranking(Restrict(hs, kept)) == Filter(Ranking(hs), KeptKey(kept))
  {
    hide Filter, Sort;
    var less := Restrict(hs, kept);
    var f := Filter(Ranking(hs), KeptKey(kept));
    RankingFacts(hs);
    NewestFirstIsOrder();
    FilterSorted(Ranking(hs), NewestFirst(), KeptKey(kept));
    FilterBag(Ranking(hs), KeptKey(kept));
    assert multiset(f) == multiset(KeysOf(less));
    SortedListingUnique(KeysOf(less), f, NewestFirst());
  }

  /** After a completed cleanup, with the same pins, the next plan is empty. */
  lemma CleanupIsFixpoint(hs: Headers, keep: nat, pinnedDir: set<string>)
    ensures var less := Restrict(hs, Retained(hs, keep, pinnedDir));
      && Retained(less, keep, pinnedDir) == less.Keys == Retained(hs, keep, pinnedDir)
      && Planned(less, keep, pinnedDir) == []
  {
    hide Ranking, Planned, IdsIn, NewestIds;
    var kept := Retained(hs, keep, pinnedDir);
    var less := Restrict(hs, kept);
    PlanPartition(hs, keep, pinnedDir);
    NewestOfSubset(hs, keep, kept);
    PlanPartition(less, keep, pinnedDir);
    assert PinnedIds(hs, pinnedDir) <= PinnedIds(less, pinnedDir);
    PlannedFacts(less, keep, pinnedDir);
    assert forall id :: id !in Planned(less, keep, pinnedDir);
    HeadIn(Planned(less, keep, pinnedDir));
  }

  lemma HeadIn<T>(s: seq<T>)
    ensures s == [] || s[0] in s
  {
  }
}
