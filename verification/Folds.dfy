/** Stratified folds dealt round-robin, nearest-centroid prediction and balanced accuracy. */
module Folds {
  import opened Common
  import opened RealSeq
  import opened Ordering

  // ---------------------------------------------------------------------------
  // Dealing
  // ---------------------------------------------------------------------------

  /** Of the first m indices, those at positions congruent to f modulo n. */
  function Dealt(indices: seq<int>, n: int, f: int, m: nat): seq<int>
    requires n > 0 && m <= |indices|
  {
    if m == 0 then []
    else Dealt(indices, n, f, m - 1) + if (m - 1) % n == f then [indices[m - 1]] else []
  }

  /** Fold f: what it is dealt of every class, class by class. */
  function FoldOf(groups: seq<seq<int>>, n: int, f: int): seq<int>
    requires n > 0
  {
    if groups == [] then []
    else
      var g := groups[|groups| - 1];
      FoldOf(groups[..|groups| - 1], n, f) + Dealt(g, n, f, |g|)
  }

  lemma NextQuotient(m: nat, n: int)
    requires n > 0
    ensures m % n == n - 1 ==> (m + 1) / n == m / n + 1 && (m + 1) % n == 0
    ensures m % n < n - 1 ==> (m + 1) / n == m / n && (m + 1) % n == m % n + 1
  {
    var q, r := m / n, m % n;
    assert m == q * n + r;
    if r == n - 1 {
      assert m + 1 == (q + 1) * n;
      DivModUnique(m + 1, n, q + 1, 0);
    } else {
      DivModUnique(m + 1, n, q, r + 1);
    }
  }

  lemma QuotientUnique(p: int, q: int, n: int, a: int, b: int)
    requires n > 0 && 0 <= a < n && 0 <= b < n && p * n + a == q * n + b
    ensures p == q && a == b
  {
    MultipleBound(p - q, n);
    assert (p - q) * n == b - a;
  }

  lemma MultipleBound(d: int, n: int)
    requires n > 0
    ensures d >= 1 ==> d * n >= n
    ensures d <= -1 ==> d * n <= -n
  {
  }

  lemma DivModUnique(a: nat, n: int, q: int, r: int)
    requires n > 0 && 0 <= r < n && a == q * n + r
    ensures a / n == q && a % n == r
  {
    assert a == (a / n) * n + a % n;
    QuotientUnique(a / n, q, n, a % n, r);
  }

  /** A fold is dealt a floor or a ceiling share of every class: the first m % n folds get one more. */
  lemma {:induction false} DealtCount(indices: seq<int>, n: int, f: int, m: nat)
    requires n > 0 && m <= |indices| && 0 <= f < n
    ensures |Dealt(indices, n, f, m)| == m / n + if f < m % n then 1 else 0
  {
    if m > 0 {
      DealtCount(indices, n, f, m - 1);
      NextQuotient(m - 1, n);
    }
  }

  /** How often x occurs. */
  function Copies(s: seq<int>, x: int): nat {
    if s == [] then 0 else Copies(s[..|s| - 1], x) + if s[|s| - 1] == x then 1 else 0
  }

  lemma CopiesSnoc(s: seq<int>, y: int, x: int)
    ensures Copies(s + [y], x) == Copies(s, x) + if y == x then 1 else 0
  {
    assert (s + [y])[..|s|] == s;
  }

  lemma {:induction false} CopiesConcat(a: seq<int>, b: seq<int>, x: int)
    ensures Copies(a + b, x) == Copies(a, x) + Copies(b, x)
    decreases |b|
  {
    if b == [] {
      assert a + b == a;
    } else {
      var init, last := b[..|b| - 1], b[|b| - 1];
      CopiesConcat(a, init, x);
      CopiesSnoc(a + init, last, x);
      assert a + b == (a + init) + [last];
    }
  }

  lemma {:induction false} CopiesIsBag(s: seq<int>, x: int)
    ensures Copies(s, x) == multiset(s)[x]
  {
    if s != [] {
      CopiesIsBag(s[..|s| - 1], x);
      assert s == s[..|s| - 1] + [s[|s| - 1]];
    }
  }

  lemma CopiesMember(s: seq<int>, x: int)
    ensures x in s <==> Copies(s, x) > 0
  {
    CopiesIsBag(s, x);
    assert x in s <==> x in multiset(s);
  }

  /** Copies of x in the first k folds' shares of one class. */
  function SharesCopies(indices: seq<int>, n: int, m: nat, k: nat, x: int): nat
    requires n > 0 && m <= |indices|
  {
    if k == 0 then 0 else SharesCopies(indices, n, m, k - 1, x) + Copies(Dealt(indices, n, k - 1, m), x)
  }

  lemma DealtStep(indices: seq<int>, n: int, f: int, m: nat, x: int)
    requires n > 0 && m < |indices|
    ensures Copies(Dealt(indices, n, f, m + 1), x)
         == Copies(Dealt(indices, n, f, m), x) + if m % n == f && indices[m] == x then 1 else 0
  {
    hide Copies;
    if m % n == f {
      CopiesSnoc(Dealt(indices, n, f, m), indices[m], x);
    } else {
      assert Dealt(indices, n, f, m) + [] == Dealt(indices, n, f, m);
    }
  }

  lemma {:induction false} SharesGrow(indices: seq<int>, n: int, m: nat, k: nat, x: int)
    requires n > 0 && m < |indices|
    ensures SharesCopies(indices, n, m + 1, k, x)
         == SharesCopies(indices, n, m, k, x) + if m % n < k && indices[m] == x then 1 else 0
  {
    hide Copies, Dealt;
    if k > 0 {
      SharesGrow(indices, n, m, k - 1, x);
      DealtStep(indices, n, k - 1, m, x);
    }
  }

  lemma {:induction false} SharesOfNothing(indices: seq<int>, n: int, k: nat, x: int)
    requires n > 0
    ensures SharesCopies(indices, n, 0, k, x) == 0
  {
    if k > 0 { SharesOfNothing(indices, n, k - 1, x); }
  }

  /** Dealing one class to all folds loses and repeats nothing. */
  lemma {:induction false} SharesAreAll(indices: seq<int>, n: int, m: nat, x: int)
    requires n > 0 && m <= |indices|
    ensures SharesCopies(indices, n, m, n, x) == Copies(indices[..m], x)
  {
    hide SharesCopies;
    if m == 0 {
      SharesOfNothing(indices, n, n, x);
    } else {
      SharesAreAll(indices, n, m - 1, x);
      SharesGrow(indices, n, m - 1, n, x);
      CopiesSnoc(indices[..m - 1], indices[m - 1], x);
      assert indices[..m] == indices[..m - 1] + [indices[m - 1]];
    }
  }

  /** Copies of x in the first k folds. */
  function FoldsCopies(groups: seq<seq<int>>, n: int, k: nat, x: int): nat
    requires n > 0
  {
    if k == 0 then 0 else FoldsCopies(groups, n, k - 1, x) + Copies(FoldOf(groups, n, k - 1), x)
  }

  function GroupsCopies(groups: seq<seq<int>>, x: int): nat {
    if groups == [] then 0 else GroupsCopies(groups[..|groups| - 1], x) + Copies(groups[|groups| - 1], x)
  }

  lemma FoldStep(groups: seq<seq<int>>, n: int, f: int, x: int)
    requires n > 0 && groups != []
    ensures var g := groups[|groups| - 1];
      Copies(FoldOf(groups, n, f), x) == Copies(FoldOf(groups[..|groups| - 1], n, f), x) + Copies(Dealt(g, n, f, |g|), x)
  {
    hide Copies, Dealt;
    var g := groups[|groups| - 1];
    CopiesConcat(FoldOf(groups[..|groups| - 1], n, f), Dealt(g, n, f, |g|), x);
  }

  lemma {:induction false} FoldsSplit(groups: seq<seq<int>>, n: int, k: nat, x: int)
    requires n > 0 && groups != []
    ensures var g := groups[|groups| - 1];
      FoldsCopies(groups, n, k, x) == FoldsCopies(groups[..|groups| - 1], n, k, x) + SharesCopies(g, n, |g|, k, x)
  {
    hide Copies, Dealt, FoldOf;
    if k > 0 {
      FoldsSplit(groups, n, k - 1, x);
      FoldStep(groups, n, k - 1, x);
    }
  }

  lemma {:induction false} FoldsOfNothing(n: int, k: nat, x: int)
    requires n > 0
    ensures FoldsCopies([], n, k, x) == 0
  {
    if k > 0 { FoldsOfNothing(n, k - 1, x); }
  }

  /** All folds together hold exactly the indices of all classes. */
  lemma {:induction false} FoldsAreAll(groups: seq<seq<int>>, n: int, x: int)
    requires n > 0
    ensures FoldsCopies(groups, n, n, x) == GroupsCopies(groups, x)
  {
    hide FoldsCopies, SharesCopies, Copies;
    if groups == [] {
      FoldsOfNothing(n, n, x);
    } else {
      var g := groups[|groups| - 1];
      FoldsAreAll(groups[..|groups| - 1], n, x);
      FoldsSplit(groups, n, n, x);
      SharesAreAll(g, n, |g|, x);
      assert g[..|g|] == g;
    }
  }

  // ---------------------------------------------------------------------------
  // Classes
  // ---------------------------------------------------------------------------

  function Range(n: nat): (r: seq<int>)
    ensures |r| == n && forall i :: 0 <= i < n ==> r[i] == i
  {
    seq(n, i => i)
  }

  function IsClass(targets: seq<int>, c: int): int -> bool {
    (i: int) => 0 <= i < |targets| && targets[i] == c
  }

  /** Row indices of a class, ascending. */
  function IndicesOf(targets: seq<int>, c: int): seq<int> {
    Filter(Range(|targets|), IsClass(targets, c))
  }

  function Distinct(xs: seq<int>): (r: seq<int>)
    ensures forall x :: x in r <==> x in xs
    ensures forall i, j :: 0 <= i < j < |r| ==> r[i] != r[j]
  {
    if xs == [] then []
    else
      var before := Distinct(xs[..|xs| - 1]);
      var last := xs[|xs| - 1];
      assert xs == xs[..|xs| - 1] + [last];
      if last in before then before else before + [last]
  }

  function IntOrder(): (int, int) -> bool {
    (a: int, b: int) => a <= b
  }

  /** Sorted distinct targets. */
  function Classes(targets: seq<int>): seq<int> {
    Sort(Distinct(targets), IntOrder())
  }

  lemma ClassesFacts(targets: seq<int>)
    ensures forall x :: x in Classes(targets) <==> x in targets
    ensures AllDifferent(Classes(targets))
    ensures forall i, j :: 0 <= i < j < |Classes(targets)| ==> Classes(targets)[i] < Classes(targets)[j]
  {
    SortMembers(Distinct(targets), IntOrder());
    NoRepeatFromBag(Distinct(targets), Classes(targets));
    SortAscends(Distinct(targets));
  }

  lemma SortAscends(xs: seq<int>)
    ensures forall i, j :: 0 <= i < j < |xs| ==> Sort(xs, IntOrder())[i] <= Sort(xs, IntOrder())[j]
  {
    SortSorted(xs, IntOrder());
    forall i, j | 0 <= i < j < |xs| ensures Sort(xs, IntOrder())[i] <= Sort(xs, IntOrder())[j] {
      assert IntOrder()(Sort(xs, IntOrder())[i], Sort(xs, IntOrder())[j]);
    }
  }

  lemma BagAtMostOne(r: seq<int>, x: int)
    requires forall i, j :: 0 <= i < j < |r| ==> r[i] != r[j]
    ensures multiset(r)[x] <= 1
    decreases |r|
  {
    if r != [] {
      BagAtMostOne(r[1..], x);
      assert r == [r[0]] + r[1..];
      assert r[0] !in r[1..];
    }
  }

  lemma NoRepeatFromBag(a: seq<int>, b: seq<int>)
    requires forall i, j :: 0 <= i < j < |a| ==> a[i] != a[j]
    requires multiset(a) == multiset(b)
    ensures forall i, j :: 0 <= i < j < |b| ==> b[i] != b[j]
  {
    forall i, j | 0 <= i < j < |b| ensures b[i] != b[j] {
      DuplicateCounts(b, i, j);
      BagAtMostOne(a, b[i]);
    }
  }

  /** Each group is some shuffle of its class's indices. */
  ghost predicate Shuffled(targets: seq<int>, classes: seq<int>, groups: seq<seq<int>>) {
    |groups| == |classes| && forall i :: 0 <= i < |classes| ==> multiset(groups[i]) == multiset(IndicesOf(targets, classes[i]))
  }

  lemma {:induction false} FilterOnce(s: seq<int>, keep: int -> bool, x: int)
    ensures multiset(Filter(s, keep))[x] == if keep(x) then multiset(s)[x] else 0
  {
    if s != [] {
      FilterOnce(s[1..], keep, x);
      assert s == [s[0]] + s[1..];
    }
  }

  lemma RangeOnce(n: nat, x: int)
    ensures multiset(Range(n))[x] == if 0 <= x < n then 1 else 0
  {
    var r := Range(n);
    BagAtMostOne(r, x);
    if 0 <= x < n { assert r[x] in r; }
  }

  lemma GroupOnce(targets: seq<int>, c: int, group: seq<int>, x: int)
    requires multiset(group) == multiset(IndicesOf(targets, c))
    ensures Copies(group, x) == if 0 <= x < |targets| && targets[x] == c then 1 else 0
  {
    hide Filter, Copies;
    CopiesIsBag(group, x);
    FilterOnce(Range(|targets|), IsClass(targets, c), x);
    RangeOnce(|targets|, x);
  }

  ghost predicate AllDifferent(xs: seq<int>) {
    forall i, j :: 0 <= i < j < |xs| ==> xs[i] != xs[j]
  }

  lemma {:induction false} GroupsOnce(targets: seq<int>, classes: seq<int>, groups: seq<seq<int>>, x: int)
    requires Shuffled(targets, classes, groups) && AllDifferent(classes)
    ensures GroupsCopies(groups, x) == if 0 <= x < |targets| && targets[x] in classes then 1 else 0
    decreases |groups|
  {
    hide Copies, IndicesOf;
    if groups != [] {
      var n := |groups| - 1;
      GroupsOnce(targets, classes[..n], groups[..n], x);
      GroupOnce(targets, classes[n], groups[n], x);
      assert classes == classes[..n] + [classes[n]];
      assert classes[n] !in classes[..n];
    }
  }

  /** The folds partition the row indices: over all folds every row occurs once and nothing else occurs. */
  lemma FoldsPartition(targets: seq<int>, groups: seq<seq<int>>, n: int, x: int)
    requires n > 0 && Shuffled(targets, Classes(targets), groups)
    ensures FoldsCopies(groups, n, n, x) == if 0 <= x < |targets| then 1 else 0
  {
    hide FoldsCopies, GroupsCopies;
    ClassesFacts(targets);
    FoldsAreAll(groups, n, x);
    GroupsOnce(targets, Classes(targets), groups, x);
    if 0 <= x < |targets| { assert targets[x] in targets; }
  }

  lemma {:induction false} FoldsHoldOne(groups: seq<seq<int>>, n: int, k: nat, f: nat, x: int)
    requires n > 0 && f < k
    ensures FoldsCopies(groups, n, k, x) >= Copies(FoldOf(groups, n, f), x)
  {
    hide Copies, FoldOf;
    if f < k - 1 { FoldsHoldOne(groups, n, k - 1, f, x); }
  }

  lemma {:induction false} FoldsHoldTwo(groups: seq<seq<int>>, n: int, k: nat, f: nat, g: nat, x: int)
    requires n > 0 && f < g < k
    ensures FoldsCopies(groups, n, k, x) >= Copies(FoldOf(groups, n, f), x) + Copies(FoldOf(groups, n, g), x)
  {
    hide Copies, FoldOf;
    if g < k - 1 {
      FoldsHoldTwo(groups, n, k - 1, f, g, x);
    } else {
      FoldsHoldOne(groups, n, k - 1, f, x);
    }
  }

  /** A row found in one fold is a valid row index and lies in no other fold. */
  lemma FoldsDisjoint(targets: seq<int>, groups: seq<seq<int>>, n: int, f: nat, g: nat, x: int)
    requires n > 0 && Shuffled(targets, Classes(targets), groups) && f < n && g < n && f != g
    requires x in FoldOf(groups, n, f)
    ensures 0 <= x < |targets| && x !in FoldOf(groups, n, g)
  {
    hide Copies, FoldOf, FoldsCopies, Shuffled;
    FoldsPartition(targets, groups, n, x);
    FoldsHoldOne(groups, n, n, f, x);
    CopiesMember(FoldOf(groups, n, f), x);
    CopiesMember(FoldOf(groups, n, g), x);
    if f < g { FoldsHoldTwo(groups, n, n, f, g, x); } else { FoldsHoldTwo(groups, n, n, g, f, x); }
  }

  // ---------------------------------------------------------------------------
  // Class shares
  // ---------------------------------------------------------------------------

  lemma {:induction false} DealtMembers(indices: seq<int>, n: int, f: int, m: nat, x: int)
    requires n > 0 && m <= |indices| && x in Dealt(indices, n, f, m)
    ensures x in indices
  {
    if x in Dealt(indices, n, f, m - 1) { DealtMembers(indices, n, f, m - 1, x); }
  }

  lemma {:induction false} CountOfNone(s: seq<int>, p: int -> bool)
    requires forall i :: 0 <= i < |s| ==> !p(s[i])
    ensures Count(s, p) == 0
  {
    if s != [] { CountOfNone(s[1..], p); }
  }

  lemma MemberOfGroup(targets: seq<int>, classes: seq<int>, groups: seq<seq<int>>, i: nat, x: int)
    requires Shuffled(targets, classes, groups) && i < |groups| && x in groups[i]
    ensures 0 <= x < |targets| && targets[x] == classes[i]
  {
    SameBagSameMembers(groups[i], IndicesOf(targets, classes[i]));
  }

  lemma ShareIsOfClass(targets: seq<int>, classes: seq<int>, groups: seq<seq<int>>, n: int, f: int, i: nat, c: int)
    requires n > 0 && Shuffled(targets, classes, groups) && i < |groups|
    ensures var share := Dealt(groups[i], n, f, |groups[i]|);
      Count(share, IsClass(targets, c)) == if classes[i] == c then |share| else 0
  {
    hide Dealt, IndicesOf;
    var g := groups[i];
    var share := Dealt(g, n, f, |g|);
    forall k | 0 <= k < |share| ensures 0 <= share[k] < |targets| && targets[share[k]] == classes[i] {
      DealtMembers(g, n, f, |g|, share[k]);
      MemberOfGroup(targets, classes, groups, i, share[k]);
    }
    if classes[i] == c { CountAll(share, IsClass(targets, c)); } else { CountOfNone(share, IsClass(targets, c)); }
  }

  lemma ShuffledPrefix(targets: seq<int>, classes: seq<int>, groups: seq<seq<int>>)
    requires Shuffled(targets, classes, groups) && groups != []
    ensures Shuffled(targets, classes[..|groups| - 1], groups[..|groups| - 1])
  {
  }

  lemma ClassStep(targets: seq<int>, classes: seq<int>, groups: seq<seq<int>>, n: int, f: int, c: int)
    requires n > 0 && Shuffled(targets, classes, groups) && groups != []
    ensures var last := |groups| - 1;
      Count(FoldOf(groups, n, f), IsClass(targets, c))
        == Count(FoldOf(groups[..last], n, f), IsClass(targets, c))
           + if classes[last] == c then |Dealt(groups[last], n, f, |groups[last]|)| else 0
  {
    hide Dealt, Shuffled, Count;
    var last := |groups| - 1;
    CountConcat(FoldOf(groups[..last], n, f), Dealt(groups[last], n, f, |groups[last]|), IsClass(targets, c));
    ShareIsOfClass(targets, classes, groups, n, f, last, c);
  }

  /** In a fold, the rows of class i are exactly what was dealt of group i. */
  lemma {:induction false} ClassShare(targets: seq<int>, classes: seq<int>, groups: seq<seq<int>>, n: int, f: int, i: nat)
    requires n > 0 && Shuffled(targets, classes, groups) && AllDifferent(classes) && i < |groups|
    ensures Count(FoldOf(groups, n, f), IsClass(targets, classes[i])) == |Dealt(groups[i], n, f, |groups[i]|)|
    decreases |groups|
  {
    hide Dealt, Count, FoldOf, IndicesOf;
    var last := |groups| - 1;
    ShuffledPrefix(targets, classes, groups);
    ClassStep(targets, classes, groups, n, f, classes[i]);
    if i == last {
      assert classes[last] !in classes[..last];
      OtherGroups(targets, classes[..last], groups[..last], n, f, classes[last]);
    } else {
      ClassShare(targets, classes[..last], groups[..last], n, f, i);
    }
  }

  lemma {:induction false} OtherGroups(targets: seq<int>, classes: seq<int>, groups: seq<seq<int>>, n: int, f: int, c: int)
    requires n > 0 && Shuffled(targets, classes, groups) && c !in classes
    ensures Count(FoldOf(groups, n, f), IsClass(targets, c)) == 0
    decreases |groups|
  {
    hide Dealt, IndicesOf;
    if groups != [] {
      var last := |groups| - 1;
      ShuffledPrefix(targets, classes, groups);
      ClassStep(targets, classes, groups, n, f, c);
      OtherGroups(targets, classes[..last], groups[..last], n, f, c);
    }
  }

  function ClassSize(targets: seq<int>, c: int): nat {
    |IndicesOf(targets, c)|
  }

  /** Counts of a class in any two folds differ by at most one. */
  lemma FoldsBalanced(targets: seq<int>, groups: seq<seq<int>>, n: int, c: int, f: nat, g: nat)
    requires n > 0 && Shuffled(targets, Classes(targets), groups) && c in targets && f < n && g < n
    ensures var m := ClassSize(targets, c);
      && Count(FoldOf(groups, n, f), IsClass(targets, c)) == m / n + (if f < m % n then 1 else 0)
      && Count(FoldOf(groups, n, f), IsClass(targets, c)) <= Count(FoldOf(groups, n, g), IsClass(targets, c)) + 1
  {
    ClassesFacts(targets);
    var classes := Classes(targets);
    var i :| 0 <= i < |classes| && classes[i] == c;
    assert |groups[i]| == |multiset(groups[i])| == |multiset(IndicesOf(targets, c))| == ClassSize(targets, c);
    ClassShare(targets, classes, groups, n, f, i);
    ClassShare(targets, classes, groups, n, g, i);
    DealtCount(groups[i], n, f, |groups[i]|);
    DealtCount(groups[i], n, g, |groups[i]|);
  }

  lemma {:induction false} CountedMember(s: seq<int>, p: int -> bool) returns (x: int)
    requires Count(s, p) > 0
    ensures x in s && p(x)
  {
    if p(s[0]) { x := s[0]; } else { x := CountedMember(s[1..], p); }
  }

  lemma AtLeastOne(m: nat, n: int)
    requires n > 0 && m >= n
    ensures m / n >= 1
  {
  }

  lemma ClassInFold(targets: seq<int>, groups: seq<seq<int>>, n: int, c: int, f: nat) returns (x: int)
    requires n > 0 && Shuffled(targets, Classes(targets), groups) && c in targets && f < n
    requires ClassSize(targets, c) >= n
    ensures x in FoldOf(groups, n, f) && 0 <= x < |targets| && targets[x] == c
  {
    hide Shuffled, FoldOf, ClassSize, Count;
    FoldsBalanced(targets, groups, n, c, f, f);
    AtLeastOne(ClassSize(targets, c), n);
    x := CountedMember(FoldOf(groups, n, f), IsClass(targets, c));
  }

  /** With n_splits >= 2 and enough rows, every class is in every test fold and in every training complement. */
  lemma EveryFoldCovers(targets: seq<int>, groups: seq<seq<int>>, n: int, c: int, f: nat)
    requires n >= 2 && Shuffled(targets, Classes(targets), groups) && c in targets && f < n
    requires ClassSize(targets, c) >= n
    ensures exists x :: x in FoldOf(groups, n, f) && 0 <= x < |targets| && targets[x] == c
    ensures exists x :: x !in FoldOf(groups, n, f) && 0 <= x < |targets| && targets[x] == c
  {
    var x := ClassInFold(targets, groups, n, c, f);
    var g := if f == 0 then 1 else 0;
    var y := ClassInFold(targets, groups, n, c, g);
    FoldsDisjoint(targets, groups, n, g, f, y);
  }

  /** With one split the training complement is empty, so no class has a centroid. */
  lemma OneSplitLeavesNoTraining(targets: seq<int>, groups: seq<seq<int>>)
    requires Shuffled(targets, Classes(targets), groups)
    ensures forall x :: 0 <= x < |targets| ==> x in FoldOf(groups, 1, 0)
  {
    hide Shuffled, FoldOf, Copies;
    forall x | 0 <= x < |targets| ensures x in FoldOf(groups, 1, 0) {
      FoldsPartition(targets, groups, 1, x);
      assert FoldsCopies(groups, 1, 0, x) == 0;
      CopiesMember(FoldOf(groups, 1, 0), x);
    }
  }

  /** The dealing loop: position i of each shuffled class goes to fold i mod n. */
  method BuildFolds(groups: seq<seq<int>>, n: int) returns (folds: seq<seq<int>>)
    requires n > 0
    ensures |folds| == n
    ensures forall f :: 0 <= f < n ==> folds[f] == FoldOf(groups, n, f)
  {
    folds := seq(n, _ => []);
    assert groups[..0] == [];
    for c := 0 to |groups|
      invariant |folds| == n
      invariant forall f :: 0 <= f < n ==> folds[f] == FoldOf(groups[..c], n, f)
    {
      var g := groups[c];
      for i := 0 to |g|
        invariant |folds| == n
        invariant forall f :: 0 <= f < n ==> folds[f] == FoldOf(groups[..c], n, f) + Dealt(g, n, f, i)
      {
        folds := folds[i % n := folds[i % n] + [g[i]]];
      }
      assert groups[..c + 1][..c] == groups[..c];
    }
    assert groups[..|groups|] == groups;
  }

  // ---------------------------------------------------------------------------
  // Nearest centroid
  // ---------------------------------------------------------------------------

  type Vec = seq<real>

  /** Squared Euclidean distance; the code compares its square root, in the same order. */
  function Distance(a: Vec, b: Vec): (d: real)
    requires |a| == |b|
  {
    SumSquares(seq(|a|, i requires 0 <= i < |a| => a[i] - b[i]))
  }

  function Column(rows: seq<Vec>, j: nat): (r: seq<real>)
    requires forall i :: 0 <= i < |rows| ==> j < |rows[i]|
    ensures |r| == |rows|
    ensures forall i :: 0 <= i < |rows| ==> r[i] == rows[i][j]
  {
    seq(|rows|, i requires 0 <= i < |rows| => rows[i][j])
  }

  /** Coordinate-wise mean of a non-empty list of rows. */
  function Centroid(rows: seq<Vec>, dim: nat): (c: Vec)
    requires rows != [] && forall i :: 0 <= i < |rows| ==> |rows[i]| == dim
    ensures |c| == dim
  {
    seq(dim, j requires 0 <= j < dim => Mean(Column(rows, j)))
  }

  function Products(a: Vec, b: Vec): (r: Vec)
    requires |a| == |b|
    ensures |r| == |a|
    ensures forall i :: 0 <= i < |a| ==> r[i] == Times(a[i], b[i])
  {
    seq(|a|, i requires 0 <= i < |a| => Times(a[i], b[i]))
  }

  lemma SquaredDifference(x: real, y: real)
    ensures Times(x - y, x - y) == Times(x, x) + Times(y, y) - 2.0 * Times(x, y)
  {
  }

  /** The squared distance from the two lengths and the inner product. */
  lemma {:induction false} DistanceIs(a: Vec, b: Vec)
    requires |a| == |b|
    ensures Distance(a, b) == SumSquares(a) + SumSquares(b) - 2.0 * Sum(Products(a, b))
  {
    var diff := seq(|a|, i requires 0 <= i < |a| => a[i] - b[i]);
    if a != [] {
      DistanceIs(a[1..], b[1..]);
      SquaredDifference(a[0], b[0]);
      hide Times;
      assert Squares(diff)[1..] == Squares(seq(|a| - 1, i requires 0 <= i < |a| - 1 => a[1..][i] - b[1..][i]));
      assert Squares(a)[1..] == Squares(a[1..]) && Squares(b)[1..] == Squares(b[1..]);
      assert Products(a, b)[1..] == Products(a[1..], b[1..]);
    }
  }

  /** In every coordinate the rows add up to as many times the centroid. */
  lemma CentroidBalances(rows: seq<Vec>, dim: nat, j: nat)
    requires rows != [] && (forall i :: 0 <= i < |rows| ==> |rows[i]| == dim) && j < dim
    ensures Sum(Column(rows, j)) == |rows| as real * Centroid(rows, dim)[j]
  {
    hide Sum;
  }

  /** A class's centroid; None is the all-NaN mean of no rows, to and from which every comparison is false. */
  type Center = Option<Vec>

  ghost predicate OfDimension(centers: seq<Center>, dim: nat) {
    forall i :: 0 <= i < |centers| && centers[i].Some? ==> |centers[i].value| == dim
  }

  /** dist < best_dist, false when either is NaN. */
  predicate Closer(row: Vec, a: Center, b: Center)
    requires a.Some? ==> |a.value| == |row|
    requires b.Some? ==> |b.value| == |row|
  {
    a.Some? && b.Some? && Distance(row, a.value) < Distance(row, b.value)
  }

  /** Class k is the answer: at least distance, the first such, and a NaN center stands exactly if it is first. */
  ghost predicate Nearest(classes: seq<int>, centers: seq<Center>, row: Vec, best: int, k: nat)
    requires |classes| == |centers| && OfDimension(centers, |row|)
  {
    && k < |classes| && classes[k] == best
    && (centers[k].None? ==> k == 0)
    && (centers[0].None? ==> k == 0)
    && (forall j :: 0 <= j < |classes| && centers[j].Some? && centers[k].Some? ==>
          Distance(row, centers[k].value) <= Distance(row, centers[j].value))
    && (forall j :: 0 <= j < k && centers[j].Some? ==>
          centers[k].Some? && Distance(row, centers[k].value) < Distance(row, centers[j].value))
  }

  ghost predicate NearestClass(classes: seq<int>, centers: seq<Center>, row: Vec, best: int)
    requires |classes| == |centers| && OfDimension(centers, |row|)
  {
    exists k: nat :: Nearest(classes, centers, row, best, k)
  }

  /** The first class whose center is nearest, tracked through the loop. */
  method NearestCentroid(classes: seq<int>, centers: seq<Center>, row: Vec) returns (best: int)
    requires |classes| == |centers| >= 1 && OfDimension(centers, |row|)
    ensures NearestClass(classes, centers, row, best)
  {
    hide Distance;
    var at := 0;
    best := classes[0];
    var bestCenter := centers[0];
    for i := 1 to |classes|
      invariant 0 <= at < i && classes[at] == best && bestCenter == centers[at]
      invariant (centers[at].None? ==> at == 0) && (centers[0].None? ==> at == 0)
      invariant forall j :: 0 <= j < i ==> !Closer(row, centers[j], centers[at])
      invariant forall j :: 0 <= j < at && centers[j].Some? ==> Closer(row, centers[at], centers[j])
    {
      if Closer(row, centers[i], bestCenter) {
        bestCenter, best, at := centers[i], classes[i], i;
      }
    }
    assert Nearest(classes, centers, row, best, at);
  }

  // ---------------------------------------------------------------------------
  // Balanced accuracy
  // ---------------------------------------------------------------------------

  /** Positions whose true label is the class, and those also predicted so, among the first n. */
  function Occurrences(truth: seq<int>, c: int, n: nat): nat
    requires n <= |truth|
  {
    if n == 0 then 0 else Occurrences(truth, c, n - 1) + if truth[n - 1] == c then 1 else 0
  }

  function Hits(truth: seq<int>, pred: seq<int>, c: int, n: nat): nat
    requires n <= |truth| == |pred|
  {
    if n == 0 then 0 else Hits(truth, pred, c, n - 1) + if truth[n - 1] == c && pred[n - 1] == c then 1 else 0
  }

  /** Recalls of the classes that occur, in class order. */
  function Recalls(classes: seq<int>, truth: seq<int>, pred: seq<int>): seq<real>
    requires |truth| == |pred|
  {
    if classes == [] then []
    else
      var before := Recalls(classes[..|classes| - 1], truth, pred);
      var c := classes[|classes| - 1];
      var denom := Occurrences(truth, c, |truth|);
      if denom == 0 then before else before + [Hits(truth, pred, c, |truth|) as real / denom as real]
  }

  lemma {:induction false} HitsBound(truth: seq<int>, pred: seq<int>, c: int, n: nat)
    requires n <= |truth| == |pred|
    ensures Hits(truth, pred, c, n) <= Occurrences(truth, c, n)
    ensures Hits(truth, pred, c, n) == Occurrences(truth, c, n)
      <==> forall i :: 0 <= i < n && truth[i] == c ==> pred[i] == c
  {
    if n > 0 { HitsBound(truth, pred, c, n - 1); }
  }

  lemma {:induction false} OccursIff(truth: seq<int>, c: int, n: nat)
    requires n <= |truth|
    ensures Occurrences(truth, c, n) > 0 <==> exists i :: 0 <= i < n && truth[i] == c
  {
    if n > 0 { OccursIff(truth, c, n - 1); }
  }

  /** Positions among the first n with this label, and those also predicted so. */
  ghost function Positions(truth: seq<int>, c: int, n: nat): set<int>
    requires n <= |truth|
  {
    set i | 0 <= i < n && truth[i] == c
  }

  ghost function HitPositions(truth: seq<int>, pred: seq<int>, c: int, n: nat): set<int>
    requires n <= |truth| == |pred|
  {
    set i | 0 <= i < n && truth[i] == c && pred[i] == c
  }

  lemma {:induction false} OccurrencesArePositions(truth: seq<int>, c: int, n: nat)
    requires n <= |truth|
    ensures Occurrences(truth, c, n) == |Positions(truth, c, n)|
  {
    if n > 0 {
      OccurrencesArePositions(truth, c, n - 1);
      var before := Positions(truth, c, n - 1);
      assert Positions(truth, c, n) == if truth[n - 1] == c then before + {n - 1} else before;
      assert n - 1 !in before;
    }
  }

  lemma {:induction false} HitsArePositions(truth: seq<int>, pred: seq<int>, c: int, n: nat)
    requires n <= |truth| == |pred|
    ensures Hits(truth, pred, c, n) == |HitPositions(truth, pred, c, n)|
  {
    if n > 0 {
      HitsArePositions(truth, pred, c, n - 1);
      var before := HitPositions(truth, pred, c, n - 1);
      assert HitPositions(truth, pred, c, n) == if truth[n - 1] == c && pred[n - 1] == c then before + {n - 1} else before;
      assert n - 1 !in before;
    }
  }

  /** The share of the class's rows that are predicted right. */
  ghost predicate IsRecall(truth: seq<int>, pred: seq<int>, c: int, recall: real)
    requires |truth| == |pred|
  {
    var rows := Positions(truth, c, |truth|);
    && rows != {}
    && recall * |rows| as real == |HitPositions(truth, pred, c, |truth|)| as real
  }

  lemma RecallOfClass(truth: seq<int>, pred: seq<int>, c: int)
    requires |truth| == |pred| && Occurrences(truth, c, |truth|) > 0
    ensures IsRecall(truth, pred, c, Hits(truth, pred, c, |truth|) as real / Occurrences(truth, c, |truth|) as real)
  {
    hide Occurrences, Hits, Positions, HitPositions;
    OccurrencesArePositions(truth, c, |truth|);
    HitsArePositions(truth, pred, c, |truth|);
  }

  lemma FilterOfOne(c: int, keep: int -> bool)
    ensures Filter([c], keep) == if keep(c) then [c] else []
  {
    assert [c][1..] == [];
  }

  function OccursIn(truth: seq<int>): int -> bool {
    (c: int) => c in truth
  }

  /** The recalls are those of the classes that occur, in class order. */
  lemma {:induction false} RecallsMeaning(classes: seq<int>, truth: seq<int>, pred: seq<int>)
    requires |truth| == |pred|
    ensures var occurring := Filter(classes, OccursIn(truth));
      && |Recalls(classes, truth, pred)| == |occurring|
      && forall k :: 0 <= k < |occurring| ==> IsRecall(truth, pred, occurring[k], Recalls(classes, truth, pred)[k])
    decreases |classes|
  {
    hide Occurrences, Hits, IsRecall, Filter;
    if classes == [] {
      assert Filter(classes, OccursIn(truth)) == [];
    } else {
      var init, c := classes[..|classes| - 1], classes[|classes| - 1];
      RecallsMeaning(init, truth, pred);
      assert classes == init + [c];
      FilterConcat(init, [c], OccursIn(truth));
      FilterOfOne(c, OccursIn(truth));
      OccursIff(truth, c, |truth|);
      if Occurrences(truth, c, |truth|) > 0 { RecallOfClass(truth, pred, c); }
    }
  }

  lemma TimesPositive(q: real, n: real)
    requires n > 0.0
    ensures q < 0.0 ==> q * n < 0.0
    ensures q < 1.0 ==> q * n < n
    ensures q > 1.0 ==> q * n > n
  {
  }

  lemma UnitQuotient(a: real, n: real)
    requires n > 0.0 && 0.0 <= a <= n
    ensures 0.0 <= a / n <= 1.0
    ensures a / n == 1.0 <==> a == n
  {
    TimesPositive(a / n, n);
    assert a / n * n == a;
  }

  lemma RatioBounds(a: nat, b: nat)
    requires a <= b && b > 0
    ensures 0.0 <= a as real / b as real <= 1.0
    ensures a as real / b as real == 1.0 <==> a == b
  {
    UnitQuotient(a as real, b as real);
  }

  ghost predicate UnitInterval(s: seq<real>) {
    forall i :: 0 <= i < |s| ==> 0.0 <= s[i] <= 1.0
  }

  lemma {:induction false} RecallFacts(classes: seq<int>, truth: seq<int>, pred: seq<int>)
    requires |truth| == |pred|
    ensures UnitInterval(Recalls(classes, truth, pred))
    ensures |Recalls(classes, truth, pred)| <= |classes|
    ensures (forall c :: c in classes ==> c in truth) ==> |Recalls(classes, truth, pred)| == |classes|
    ensures (forall i :: 0 <= i < |Recalls(classes, truth, pred)| ==> Recalls(classes, truth, pred)[i] == 1.0)
      <==> (forall i :: 0 <= i < |truth| && truth[i] in classes ==> pred[i] == truth[i])
  {
    hide Hits, Occurrences;
    if classes != [] {
      var init, c := classes[..|classes| - 1], classes[|classes| - 1];
      assert classes == init + [c];
      RecallFacts(init, truth, pred);
      HitsBound(truth, pred, c, |truth|);
      OccursIff(truth, c, |truth|);
      var denom := Occurrences(truth, c, |truth|);
      var before := Recalls(init, truth, pred);
      assert c in classes;
      assert c in truth <==> denom > 0;
      if denom > 0 {
        RatioBounds(Hits(truth, pred, c, |truth|), denom);
        assert Recalls(classes, truth, pred)[..|before|] == before;
        assert Recalls(classes, truth, pred)[|before|] == Hits(truth, pred, c, |truth|) as real / denom as real;
      }
    }
  }

  lemma {:induction false} SumOfUnits(s: seq<real>)
    requires UnitInterval(s)
    ensures 0.0 <= Sum(s) <= |s| as real
    ensures Sum(s) == |s| as real <==> forall i :: 0 <= i < |s| ==> s[i] == 1.0
  {
    if s != [] {
      SumOfUnits(s[1..]);
      assert forall i :: 0 < i < |s| ==> s[i] == s[1..][i - 1];
      assert (forall i :: 0 <= i < |s| ==> s[i] == 1.0)
        <==> s[0] == 1.0 && forall i :: 0 <= i < |s| - 1 ==> s[1..][i] == 1.0;
    }
  }

  lemma MeanOfUnits(s: seq<real>)
    requires UnitInterval(s) && s != []
    ensures 0.0 <= Mean(s) <= 1.0
    ensures Mean(s) == 1.0 <==> forall i :: 0 <= i < |s| ==> s[i] == 1.0
  {
    hide Sum;
    SumOfUnits(s);
    UnitQuotient(Sum(s), |s| as real);
  }

  /** The score of one fold lies in [0, 1], and is 1 exactly when every row is predicted right. */
  lemma ScoreInUnit(classes: seq<int>, truth: seq<int>, pred: seq<int>)
    requires |truth| == |pred| && classes != [] && forall c :: c in classes <==> c in truth
    ensures |Recalls(classes, truth, pred)| == |classes|
    ensures 0.0 <= Mean(Recalls(classes, truth, pred)) <= 1.0
    ensures Mean(Recalls(classes, truth, pred)) == 1.0 <==> pred == truth
  {
    hide Mean;
    RecallFacts(classes, truth, pred);
    MeanOfUnits(Recalls(classes, truth, pred));
    forall i | 0 <= i < |truth| ensures truth[i] in classes {
      var c := truth[i];
      assert c in truth;
    }
    assert pred == truth <==> forall i :: 0 <= i < |truth| ==> pred[i] == truth[i];
  }

  /** None stands for the NaN of a fold in which no class occurs. */
  method BalancedAccuracy(classes: seq<int>, truth: seq<int>, pred: seq<int>) returns (score: Option<real>)
    requires |truth| == |pred|
    ensures score == if Recalls(classes, truth, pred) == [] then None else Some(Mean(Recalls(classes, truth, pred)))
  {
    hide Mean;
    var recalls: seq<real> := [];
    assert classes[..0] == [];
    for k := 0 to |classes|
      invariant recalls == Recalls(classes[..k], truth, pred)
    {
      var c := classes[k];
      assert classes[..k + 1][..k] == classes[..k];
      var denom, num := 0, 0;
      for i := 0 to |truth|
        invariant denom == Occurrences(truth, c, i) && num == Hits(truth, pred, c, i)
      {
        if truth[i] == c {
          denom := denom + 1;
          if pred[i] == c { num := num + 1; }
        }
      }
      if denom != 0 {
        recalls := recalls + [num as real / denom as real];
      }
    }
    assert classes[..|classes|] == classes;
    score := if recalls == [] then None else Some(Mean(recalls));
  }

  // ---------------------------------------------------------------------------
  // Cross validation
  // ---------------------------------------------------------------------------

  datatype FoldError = TooFewClasses | ClassTooSmall | NoFolds

  function NotIn(fold: seq<int>): int -> bool {
    (i: int) => i !in fold
  }

  /** Rows outside the fold, ascending: the training mask. */
  function Complement(n: nat, fold: seq<int>): seq<int> {
    Filter(Range(n), NotIn(fold))
  }

  /** The elements at the given indices, in their order. */
  function Pick<T>(xs: seq<T>, indices: seq<int>): (r: seq<T>)
    requires forall i :: 0 <= i < |indices| ==> 0 <= indices[i] < |xs|
    ensures |r| == |indices|
    ensures forall i :: 0 <= i < |r| ==> r[i] == xs[indices[i]]
  {
    seq(|indices|, i requires 0 <= i < |indices| => xs[indices[i]])
  }

  lemma FoldIndices(targets: seq<int>, groups: seq<seq<int>>, n: int, f: nat)
    requires n > 0 && Shuffled(targets, Classes(targets), groups) && f < n
    ensures forall x :: x in FoldOf(groups, n, f) ==> 0 <= x < |targets|
  {
    hide Copies, FoldOf, FoldsCopies, Shuffled;
    forall x | x in FoldOf(groups, n, f) ensures 0 <= x < |targets| {
      FoldsPartition(targets, groups, n, x);
      FoldsHoldOne(groups, n, n, f, x);
      CopiesMember(FoldOf(groups, n, f), x);
    }
  }

  predicate EnoughRows(targets: seq<int>, n: int) {
    forall c :: c in targets ==> ClassSize(targets, c) >= n
  }

  /** Rows of a class outside the fold. */
  function TrainRows(targets: seq<int>, fold: seq<int>, c: int): (r: seq<int>)
    ensures forall i :: 0 <= i < |r| ==> 0 <= r[i] < |targets| && r[i] !in fold && targets[r[i]] == c
    ensures forall x :: 0 <= x < |targets| && x !in fold && targets[x] == c ==> x in r
  {
    var r := Filter(Complement(|targets|, fold), IsClass(targets, c));
    assert forall i :: 0 <= i < |r| ==> r[i] in r && IsClass(targets, c)(r[i]);
    assert forall i :: 0 <= i < |r| ==> r[i] in Complement(|targets|, fold) && NotIn(fold)(r[i]);
    assert forall x :: 0 <= x < |targets| && x !in fold && targets[x] == c ==> x in r by {
      forall x | 0 <= x < |targets| && x !in fold && targets[x] == c ensures x in r {
        assert Range(|targets|)[x] == x;
        assert NotIn(fold)(x) && x in Complement(|targets|, fold);
        assert IsClass(targets, c)(x);
      }
    }
    r
  }

  function ClassCenter(features: seq<Vec>, targets: seq<int>, dim: nat, fold: seq<int>, c: int): (v: Center)
    requires |features| == |targets| && forall i :: 0 <= i < |features| ==> |features[i]| == dim
    ensures v.Some? <==> TrainRows(targets, fold, c) != []
    ensures v.Some? ==> |v.value| == dim
  {
    var rows := TrainRows(targets, fold, c);
    if rows == [] then None else Some(Centroid(Pick(features, rows), dim))
  }

  /** Every class has its center, the mean of its rows outside the fold. */
  ghost predicate Trained(features: seq<Vec>, targets: seq<int>, dim: nat, fold: seq<int>, centers: seq<Center>)
    requires |features| == |targets| && forall i :: 0 <= i < |features| ==> |features[i]| == dim
    ensures Trained(features, targets, dim, fold, centers) ==> OfDimension(centers, dim)
  {
    var classes := Classes(targets);
    && |centers| == |classes|
    && forall k :: 0 <= k < |classes| ==> centers[k] == ClassCenter(features, targets, dim, fold, classes[k])
  }

  /** Each test row is given the class of its nearest center. */
  ghost predicate Predicted(classes: seq<int>, centers: seq<Center>, rows: seq<Vec>, dim: nat, preds: seq<int>)
    requires |classes| == |centers| && OfDimension(centers, dim)
    requires forall i :: 0 <= i < |rows| ==> |rows[i]| == dim
  {
    && |preds| == |rows|
    && forall i :: 0 <= i < |rows| ==> NearestClass(classes, centers, rows[i], preds[i])
  }

  /** The score of a fold: balanced accuracy, on its rows in ascending order, of the model trained on the other rows. */
  ghost predicate FoldScore(features: seq<Vec>, targets: seq<int>, dim: nat, fold: seq<int>, score: real)
    requires |features| == |targets| && forall i :: 0 <= i < |features| ==> |features[i]| == dim
    requires forall x :: x in fold ==> 0 <= x < |targets|
  {
    var test := TestRows(fold, |targets|);
    exists centers, preds ::
      && Trained(features, targets, dim, fold, centers)
      && Predicted(Classes(targets), centers, Pick(features, test), dim, preds)
      && Recalls(Classes(targets), Pick(targets, test), preds) != []
      && score == Mean(Recalls(Classes(targets), Pick(targets, test), preds))
  }

  function TestRows(fold: seq<int>, n: nat): (r: seq<int>)
    requires forall x :: x in fold ==> 0 <= x < n
    ensures forall x :: x in r <==> x in fold
    ensures multiset(r) == multiset(fold)
    ensures forall i :: 0 <= i < |r| ==> 0 <= r[i] < n
    ensures forall i, j :: 0 <= i < j < |r| ==> r[i] <= r[j]
  {
    SortMembers(fold, IntOrder());
    SortAscends(fold);
    var r := Sort(fold, IntOrder());
    assert forall i :: 0 <= i < |r| ==> r[i] in r;
    r
  }

  /** No class is without training rows outside the fold, so no center is the mean of nothing. */
  ghost predicate AllTrained(targets: seq<int>, fold: seq<int>) {
    forall c :: c in targets ==> TrainRows(targets, fold, c) != []
  }

  lemma TwoSplitsTrainAll(targets: seq<int>, groups: seq<seq<int>>, n: int, f: nat)
    requires n >= 2 && f < n && Shuffled(targets, Classes(targets), groups) && EnoughRows(targets, n)
    ensures AllTrained(targets, FoldOf(groups, n, f))
  {
    hide FoldOf, Shuffled, ClassSize;
    var fold := FoldOf(groups, n, f);
    forall c | c in targets ensures TrainRows(targets, fold, c) != [] {
      EveryFoldCovers(targets, groups, n, c, f);
      var x :| x !in fold && 0 <= x < |targets| && targets[x] == c;
      assert x in TrainRows(targets, fold, c);
    }
  }

  /** Train on the complement of one fold, score on the fold. */
  method ScoreFold(features: seq<Vec>, targets: seq<int>, dim: nat, ghost groups: seq<seq<int>>, ghost n: int, ghost f: nat,
    fold: seq<int>) returns (score: real)
    requires |features| == |targets| && forall i :: 0 <= i < |features| ==> |features[i]| == dim
    requires targets != [] && n >= 1 && f < n && Shuffled(targets, Classes(targets), groups) && EnoughRows(targets, n)
    requires fold == FoldOf(groups, n, f) && forall x :: x in fold ==> 0 <= x < |targets|
    ensures 0.0 <= score <= 1.0
    ensures FoldScore(features, targets, dim, fold, score)
    ensures n >= 2 ==> AllTrained(targets, fold)
    ensures n == 1 ==> |Classes(targets)| > 0 && score == 1.0 / |Classes(targets)| as real
  {
    hide FoldOf, Shuffled, Classes, Mean, Recalls, Distance, ClassCenter, ClassSize, TrainRows, TestRows, NearestClass, AllTrained;
    var classes := Classes(targets);
    ClassesFacts(targets);
    if n >= 2 { TwoSplitsTrainAll(targets, groups, n, f); }
    var test := TestRows(fold, |targets|);
    var centers: seq<Center> := [];
    for k := 0 to |classes|
      invariant |centers| == k
      invariant forall j :: 0 <= j < k ==> centers[j] == ClassCenter(features, targets, dim, fold, classes[j])
    {
      centers := centers + [ClassCenter(features, targets, dim, fold, classes[k])];
    }
    var first := targets[0];
    assert first in targets;
    assert first in classes;
    var rows := Pick(features, test);
    var preds: seq<int> := [];
    for i := 0 to |rows|
      invariant |preds| == i
      invariant forall j :: 0 <= j < i ==> NearestClass(classes, centers, rows[j], preds[j])
    {
      var predicted := NearestCentroid(classes, centers, rows[i]);
      ghost var before := preds;
      preds := preds + [predicted];
      assert forall j :: 0 <= j < i ==> preds[j] == before[j];
    }
    var truth := Pick(targets, test);
    TestCoversClasses(targets, groups, n, f, test, truth);
    var accuracy := BalancedAccuracy(classes, truth, preds);
    ScoreInUnit(classes, truth, preds);
    score := accuracy.value;
    assert Trained(features, targets, dim, fold, centers);
    assert Predicted(classes, centers, rows, dim, preds);
    if n == 1 {
      OneSplitPredictsFirst(features, targets, dim, groups, fold, centers, rows, preds);
      OneAnswerScore(classes, truth, preds);
    }
  }

  /** With one split every center is NaN, so every row is given the first class. */
  lemma OneSplitPredictsFirst(features: seq<Vec>, targets: seq<int>, dim: nat, groups: seq<seq<int>>, fold: seq<int>,
                              centers: seq<Center>, rows: seq<Vec>, preds: seq<int>)
    requires |features| == |targets| && forall i :: 0 <= i < |features| ==> |features[i]| == dim
    requires Shuffled(targets, Classes(targets), groups) && fold == FoldOf(groups, 1, 0)
    requires Trained(features, targets, dim, fold, centers) && Classes(targets) != []
    requires forall i :: 0 <= i < |rows| ==> |rows[i]| == dim
    requires Predicted(Classes(targets), centers, rows, dim, preds)
    ensures forall i :: 0 <= i < |preds| ==> preds[i] == Classes(targets)[0]
  {
    hide FoldOf, Shuffled, Classes, ClassCenter, TrainRows, Distance;
    OneSplitLeavesNoTraining(targets, groups);
    TrainRowIsOutside(targets, fold, Classes(targets)[0]);
    assert centers[0].None?;
  }

  lemma TrainRowIsOutside(targets: seq<int>, fold: seq<int>, c: int)
    ensures TrainRows(targets, fold, c) != [] ==> exists x :: 0 <= x < |targets| && x !in fold
  {
    hide TrainRows;
    var rows := TrainRows(targets, fold, c);
    if rows != [] { assert rows[0] !in fold; }
  }

  /** Answering one class throughout recalls that class fully and the others not at all. */
  lemma OneAnswerScore(classes: seq<int>, truth: seq<int>, pred: seq<int>)
    requires |truth| == |pred| && classes != [] && AllDifferent(classes) && forall c :: c in classes <==> c in truth
    requires forall i :: 0 <= i < |pred| ==> pred[i] == classes[0]
    ensures Recalls(classes, truth, pred) != []
    ensures Mean(Recalls(classes, truth, pred)) == 1.0 / |classes| as real
  {
    hide Sum;
    OneAnswerRecalls(classes, truth, pred, |classes|);
    assert classes[..|classes|] == classes;
  }

  lemma {:induction false} OneAnswerRecalls(classes: seq<int>, truth: seq<int>, pred: seq<int>, m: nat)
    requires |truth| == |pred| && AllDifferent(classes) && (forall c :: c in classes ==> c in truth)
    requires 1 <= m <= |classes| && forall i :: 0 <= i < |pred| ==> pred[i] == classes[0]
    ensures |Recalls(classes[..m], truth, pred)| == m && Sum(Recalls(classes[..m], truth, pred)) == 1.0
  {
    hide Sum, Hits, Occurrences;
    var c := classes[m - 1];
    assert c in classes;
    OccursIff(truth, c, |truth|);
    HitsOfOneAnswer(truth, pred, c, classes[0], |truth|);
    assert classes[..m][..m - 1] == classes[..m - 1];
    var before := Recalls(classes[..m - 1], truth, pred);
    if m == 1 {
      SumSingle(1.0);
      RatioBounds(Occurrences(truth, c, |truth|), Occurrences(truth, c, |truth|));
      assert before == [];
      assert Recalls(classes[..m], truth, pred) == [1.0];
    } else {
      OneAnswerRecalls(classes, truth, pred, m - 1);
      SumSnoc(before, 0.0);
      assert Recalls(classes[..m], truth, pred) == before + [0.0];
    }
  }

  lemma {:induction false} HitsOfOneAnswer(truth: seq<int>, pred: seq<int>, c: int, answer: int, n: nat)
    requires n <= |truth| == |pred| && forall i :: 0 <= i < |pred| ==> pred[i] == answer
    ensures Hits(truth, pred, c, n) == if c == answer then Occurrences(truth, c, n) else 0
  {
    if n > 0 { HitsOfOneAnswer(truth, pred, c, answer, n - 1); }
  }

  lemma TestCoversClasses(targets: seq<int>, groups: seq<seq<int>>, n: int, f: nat, test: seq<int>, truth: seq<int>)
    requires n >= 1 && f < n && Shuffled(targets, Classes(targets), groups) && EnoughRows(targets, n)
    requires forall x :: x in test <==> x in FoldOf(groups, n, f)
    requires forall i :: 0 <= i < |test| ==> 0 <= test[i] < |targets|
    requires truth == Pick(targets, test)
    ensures forall c :: c in Classes(targets) <==> c in truth
  {
    hide FoldOf, Shuffled, Classes, ClassSize;
    ClassesFacts(targets);
    forall c | c in targets ensures c in truth {
      var x := ClassInFold(targets, groups, n, c, f);
      var k :| 0 <= k < |test| && test[k] == x;
      assert truth[k] == c;
    }
    forall c | c in truth ensures c in targets {
      var k :| 0 <= k < |truth| && truth[k] == c;
      assert targets[test[k]] == c;
    }
  }

  /** The scores are those of the round-robin folds, one each. */
  ghost predicate FoldScores(features: seq<Vec>, targets: seq<int>, dim: nat, groups: seq<seq<int>>, n: int, scores: seq<real>)
    requires |features| == |targets| && forall i :: 0 <= i < |features| ==> |features[i]| == dim
    requires n > 0
  {
    && |scores| == n
    && forall f :: 0 <= f < n ==>
      (forall x :: x in FoldOf(groups, n, f) ==> 0 <= x < |targets|)
      && FoldScore(features, targets, dim, FoldOf(groups, n, f), scores[f])
  }

  lemma MeanOfOne(x: real)
    ensures Mean([x]) == x
  {
    SumSingle(x);
  }

  /**
   * Too few classes, too small a class, and then fewer than one split are errors; otherwise the mean score over
   * the folds, which lies in [0, 1]. From two splits on every class has training rows in every fold; with a
   * single split the score is one over the number of classes, whatever the features.
   */
  method CrossValidate(features: seq<Vec>, targets: seq<int>, dim: nat, groups: seq<seq<int>>, n: int)
    returns (r: Result<real, FoldError>, scores: seq<real>)
    requires |features| == |targets| && forall i :: 0 <= i < |features| ==> |features[i]| == dim
    requires Shuffled(targets, Classes(targets), groups)
    ensures r == Err(TooFewClasses) <==> |Classes(targets)| < 2
    ensures r == Err(ClassTooSmall) <==> |Classes(targets)| >= 2 && !EnoughRows(targets, n)
    ensures r == Err(NoFolds) <==> |Classes(targets)| >= 2 && n < 1
    ensures r.Ok? ==>
      && n >= 1 && FoldScores(features, targets, dim, groups, n, scores)
      && r.value == Mean(scores) && 0.0 <= r.value <= 1.0
    ensures r.Ok? && n >= 2 ==> forall f :: 0 <= f < n ==> AllTrained(targets, FoldOf(groups, n, f))
    ensures r.Ok? && n == 1 ==> |Classes(targets)| > 0 && r.value == 1.0 / |Classes(targets)| as real
  {
    hide Filter, FoldOf, Shuffled, Classes, ClassSize, FoldScore, Mean, AllTrained;
    scores := [];
    if |Classes(targets)| < 2 {
      return Err(TooFewClasses), [];
    }
    ClassesFacts(targets);
    var classes := Classes(targets);
    for k := 0 to |classes|
      invariant forall j :: 0 <= j < k ==> ClassSize(targets, classes[j]) >= n
    {
      if ClassSize(targets, classes[k]) < n {
        assert classes[k] in targets;
        return Err(ClassTooSmall), [];
      }
    }
    assert EnoughRows(targets, n) by {
      forall c | c in targets ensures ClassSize(targets, c) >= n {
        var j :| 0 <= j < |classes| && classes[j] == c;
      }
    }
    if n < 1 {
      return Err(NoFolds), [];
    }
    assert classes[0] in targets;
    var folds := BuildFolds(groups, n);
    for f := 0 to n
      invariant |scores| == f && UnitInterval(scores)
      invariant forall j :: 0 <= j < f ==>
        && (forall x :: x in folds[j] ==> 0 <= x < |targets|)
        && FoldScore(features, targets, dim, folds[j], scores[j])
        && (n >= 2 ==> AllTrained(targets, folds[j]))
      invariant n == 1 && f == 1 ==> scores[0] == 1.0 / |classes| as real
    {
      FoldIndices(targets, groups, n, f);
      var score := ScoreFold(features, targets, dim, groups, n, f, folds[f]);
      scores := scores + [score];
    }
    MeanOfUnits(scores);
    r := Ok(Mean(scores));
    if n == 1 {
      assert scores == [scores[0]];
      MeanOfOne(scores[0]);
    }
  }
}
