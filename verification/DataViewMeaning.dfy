/** What as_of returns, read off the stored rows alone: no sorting, no scanning. */
module DataViewMeaning {
  import opened Common
  import opened Ordering
  import opened DataViewModel

  /** r is the first stored row that satisfies p. */
  ghost predicate FirstStored(store: seq<Row>, p: Row -> bool, r: Row) {
    exists k :: 0 <= k < |store| && store[k] == r && p(r) && forall j :: 0 <= j < k ==> !p(store[j])
  }

  function KeyOf(symbol: string, asOf: int, like: Row): Row -> bool {
    (q: Row) => q.symbol == symbol && q.valid <= asOf && q.know <= asOf && q.valid == like.valid && q.know == like.know
  }

  function ValuedKeyOf(symbol: string, asOf: int, field: string, like: Row): Row -> bool {
    (q: Row) => KeyOf(symbol, asOf, like)(q) && q.Cell(field).Some?
  }

  /**
   * Of the symbol's rows with both dates at most T, the one with the greatest (valid, knowledge) pair; of equal
   * pairs the one stored first.
   */
  ghost predicate Anchor(store: seq<Row>, symbol: string, asOf: int, r: Row) {
    && (forall q :: q in store && q.symbol == symbol && q.valid <= asOf && q.know <= asOf ==>
          q.valid < r.valid || (q.valid == r.valid && q.know <= r.know))
    && FirstStored(store, KeyOf(symbol, asOf, r), r)
  }

  /** The row a cell is taken from: the anchor if it has a value, or the latest visible row that has one. */
  ghost predicate Observed(store: seq<Row>, symbol: string, asOf: int, field: string, fill: FillPolicy, r: Row) {
    match fill
    case Reject => Anchor(store, symbol, asOf, r) && r.Cell(field).Some?
    case Forward =>
      LatestValue(store, symbol, asOf, field, r) && FirstStored(store, ValuedKeyOf(symbol, asOf, field, r), r)
  }

  /** A cell is the observed value while that is at most ttl days old; else NaN, or the error the policy asks for. */
  ghost predicate CellMeans(store: seq<Row>, symbol: string, asOf: int, field: string, cfg: FieldConfig,
                            outcome: Result<Option<real>, Staleness>) {
    match outcome
    case Ok(Some(v)) =>
      exists r :: Observed(store, symbol, asOf, field, cfg.fill, r) && r.Cell(field) == Some(v) && asOf - r.know <= cfg.ttlDays
    case Ok(None) =>
      cfg.missing == Warn && NothingFresh(store, symbol, asOf, field, cfg)
    case Err(MissingField(f, s)) =>
      f == field && s == symbol && cfg.missing == Fail && NothingObserved(store, symbol, asOf, field, cfg)
    case Err(StaleField(f, s)) =>
      && f == field && s == symbol && cfg.missing == Fail
      && NothingFresh(store, symbol, asOf, field, cfg) && !NothingObserved(store, symbol, asOf, field, cfg)
  }

  ghost predicate NothingObserved(store: seq<Row>, symbol: string, asOf: int, field: string, cfg: FieldConfig) {
    forall r :: r in store ==> !Observed(store, symbol, asOf, field, cfg.fill, r)
  }

  ghost predicate NothingFresh(store: seq<Row>, symbol: string, asOf: int, field: string, cfg: FieldConfig) {
    forall r :: r in store && Observed(store, symbol, asOf, field, cfg.fill, r) ==> asOf - r.know > cfg.ttlDays
  }

  // ---------------------------------------------------------------------------
  // First in storage order
  // ---------------------------------------------------------------------------

  lemma {:induction false} FilterFirst(store: seq<Row>, p: Row -> bool)
    requires Filter(store, p) != []
    ensures FirstStored(store, p, Filter(store, p)[0])
  {
    if !p(store[0]) {
      FilterFirst(store[1..], p);
      var r := Filter(store, p)[0];
      var k :| 0 <= k < |store| - 1 && store[1..][k] == r && p(r) && forall j :: 0 <= j < k ==> !p(store[1..][j]);
      assert forall j :: 0 < j < k + 1 ==> store[j] == store[1..][j - 1];
      assert store[k + 1] == r;
    } else {
      assert store[0] == Filter(store, p)[0];
    }
  }

  lemma FirstUnique(store: seq<Row>, p: Row -> bool, r: Row, q: Row)
    requires FirstStored(store, p, r) && FirstStored(store, p, q)
    ensures r == q
  {
  }

  /** Sorting does not change which of the rows of one key is found first. */
  lemma FirstOfKey(store: seq<Row>, symbol: string, asOf: int, p: Row -> bool, i: nat)
    requires i < |Ordered(store, symbol, asOf)|
    requires var rows := Ordered(store, symbol, asOf);
      && p(rows[i]) && (forall k :: 0 <= k < i ==> !p(rows[k]))
      && (forall q :: p(q) ==> KeyOf(symbol, asOf, rows[i])(q))
    ensures FirstStored(store, p, Ordered(store, symbol, asOf)[i])
  {
    var rows, visible := Ordered(store, symbol, asOf), Visible(store, symbol, asOf);
    OrdersAreTotal();
    FilterSort(visible, SnapshotOrder(), p);
    SortOfEquals(Filter(visible, p), SnapshotOrder());
    FilterTwice(store, p, VisibleTo(symbol, asOf));
    FilterHead(rows, p, i);
    FilterFirst(store, p);
  }

  lemma {:induction false} FilterHead(rows: seq<Row>, p: Row -> bool, i: nat)
    requires i < |rows| && p(rows[i]) && forall k :: 0 <= k < i ==> !p(rows[k])
    ensures Filter(rows, p) != [] && Filter(rows, p)[0] == rows[i]
  {
    if i > 0 { FilterHead(rows[1..], p, i - 1); }
  }

  // ---------------------------------------------------------------------------
  // Cells
  // ---------------------------------------------------------------------------

  lemma AnchorIsHead(store: seq<Row>, symbol: string, asOf: int)
    requires Visible(store, symbol, asOf) != []
    ensures Anchor(store, symbol, asOf, Ordered(store, symbol, asOf)[0])
    ensures forall r :: Anchor(store, symbol, asOf, r) ==> r == Ordered(store, symbol, asOf)[0]
  {
    hide Ordered, Visible, FirstStored;
    HeadIsGreatest(store, symbol, asOf);
    var head := Ordered(store, symbol, asOf)[0];
    FirstOfKey(store, symbol, asOf, KeyOf(symbol, asOf, head), 0);
    forall r | Anchor(store, symbol, asOf, r) ensures r == head {
      FirstHolds(store, KeyOf(symbol, asOf, r), r);
      assert LatestFirst(r, head) && LatestFirst(head, r);
      SameKeySameRow(store, symbol, asOf, r, head);
    }
  }

  lemma FirstHolds(store: seq<Row>, p: Row -> bool, r: Row)
    requires FirstStored(store, p, r)
    ensures r in store && p(r)
  {
  }

  lemma SameKeySameRow(store: seq<Row>, symbol: string, asOf: int, r: Row, q: Row)
    requires FirstStored(store, KeyOf(symbol, asOf, r), r) && FirstStored(store, KeyOf(symbol, asOf, q), q)
    requires r.valid == q.valid && r.know == q.know
    ensures r == q
  {
  }

  lemma ForwardIsFirstNonNull(store: seq<Row>, symbol: string, asOf: int, field: string)
    requires Visible(store, symbol, asOf) != []
    ensures var rows := Ordered(store, symbol, asOf);
      var i := FirstNonNull(rows, field);
      && (i < |rows| ==> Observed(store, symbol, asOf, field, Forward, rows[i]))
      && (forall r :: Observed(store, symbol, asOf, field, Forward, r) ==> i < |rows| && r.know == rows[i].know)
  {
    hide Ordered, Visible, FirstStored;
    var rows := Ordered(store, symbol, asOf);
    var i := FirstNonNull(rows, field);
    AllNullIff(store, symbol, asOf, field);
    if i < |rows| {
      FirstNonNullIsLatest(store, symbol, asOf, field);
      assert LatestValue(store, symbol, asOf, field, rows[i]);
      var r := rows[i];
      assert VisibleTo(symbol, asOf)(r);
      assert KeyOf(symbol, asOf, r)(r);
      assert r.Cell(field).Some?;
      assert ValuedKeyOf(symbol, asOf, field, r)(r);
      FirstOfKey(store, symbol, asOf, ValuedKeyOf(symbol, asOf, field, rows[i]), i);
    }
  }

  lemma CellMeaning(store: seq<Row>, symbol: string, asOf: int, field: string, cfg: FieldConfig)
    requires Visible(store, symbol, asOf) != []
    ensures CellMeans(store, symbol, asOf, field, cfg,
                      FieldOutcome(Ordered(store, symbol, asOf), symbol, field, cfg, asOf))
  {
    hide Ordered, Visible, Anchor, LatestValue, FirstStored;
    OrderedRowsAreStored(store, symbol, asOf);
    var rows := Ordered(store, symbol, asOf);
    if cfg.fill == Reject {
      AnchorIsHead(store, symbol, asOf);
      assert rows[0].Cell(field).Some? ==> Observed(store, symbol, asOf, field, Reject, rows[0]);
    } else {
      ForwardIsFirstNonNull(store, symbol, asOf, field);
    }
  }

  lemma OrderedRowsAreStored(store: seq<Row>, symbol: string, asOf: int)
    ensures forall i :: 0 <= i < |Ordered(store, symbol, asOf)| ==> Ordered(store, symbol, asOf)[i] in store
  {
    OrderedFacts(store, symbol, asOf);
    var rows := Ordered(store, symbol, asOf);
    forall i | 0 <= i < |rows| ensures rows[i] in store { assert rows[i] in rows; }
  }

  // ---------------------------------------------------------------------------
  // Snapshots
  // ---------------------------------------------------------------------------

  function HasRows(store: seq<Row>, asOf: int): string -> bool {
    (symbol: string) => exists q :: q in store && q.symbol == symbol && q.valid <= asOf && q.know <= asOf
  }

  /** The policy of the field asks for an error and no observation is fresh enough. */
  ghost predicate FieldFails(store: seq<Row>, symbol: string, asOf: int, field: string, cfg: FieldConfig) {
    cfg.missing == Fail && NothingFresh(store, symbol, asOf, field, cfg)
  }

  /** A snapshot: the anchor's valid date, T as its knowledge date, and every requested field's cell. */
  ghost predicate SnapshotMeans(store: seq<Row>, symbol: string, fields: seq<string>, cfg: PitConfig, asOf: int,
                                snap: Snapshot) {
    && snap.symbol == symbol && snap.know == asOf
    && (exists anchor :: Anchor(store, symbol, asOf, anchor) && snap.valid == anchor.valid)
    && snap.values.Keys == (set f | f in fields && !KeyColumn(f))
    && (forall f :: f in snap.values ==> CellMeans(store, symbol, asOf, f, cfg(f), Ok(snap.values[f])))
  }

  lemma MeansOkIff(store: seq<Row>, symbol: string, asOf: int, field: string, cfg: FieldConfig,
                   outcome: Result<Option<real>, Staleness>)
    requires CellMeans(store, symbol, asOf, field, cfg, outcome)
    ensures outcome.Err? <==> FieldFails(store, symbol, asOf, field, cfg)
  {
    hide Observed;
    if outcome.Ok? && outcome.value.Some? {
      var r :| Observed(store, symbol, asOf, field, cfg.fill, r) && asOf - r.know <= cfg.ttlDays;
      ObservedIsStored(store, symbol, asOf, field, cfg.fill, r);
    }
  }

  lemma ObservedIsStored(store: seq<Row>, symbol: string, asOf: int, field: string, fill: FillPolicy, r: Row)
    requires Observed(store, symbol, asOf, field, fill, r)
    ensures r in store
  {
  }

  /** Number j of the fields fails for the symbol, with this error, and no earlier one fails. */
  ghost predicate FirstFailingField(store: seq<Row>, symbol: string, fields: seq<string>, cfg: PitConfig, asOf: int,
                                    e: Staleness, j: nat) {
    && j < |fields| && !KeyColumn(fields[j])
    && CellMeans(store, symbol, asOf, fields[j], cfg(fields[j]), Err(e))
    && (forall k :: 0 <= k < j && !KeyColumn(fields[k]) ==> !FieldFails(store, symbol, asOf, fields[k], cfg(fields[k])))
  }

  lemma {:induction false} FieldsMeaning(store: seq<Row>, symbol: string, fields: seq<string>, cfg: PitConfig, asOf: int)
    requires Visible(store, symbol, asOf) != []
    ensures match FieldValues(Ordered(store, symbol, asOf), symbol, fields, cfg, asOf)
      case Ok(values) =>
        && values.Keys == (set f | f in fields && !KeyColumn(f))
        && (forall f :: f in values ==> CellMeans(store, symbol, asOf, f, cfg(f), Ok(values[f])))
        && (forall f :: f in fields && !KeyColumn(f) ==> !FieldFails(store, symbol, asOf, f, cfg(f)))
      case Err(e) =>
        exists j: nat :: FirstFailingField(store, symbol, fields, cfg, asOf, e, j)
    decreases |fields|
  {
    hide FieldOutcome, CellMeans, FieldFails, Ordered, Visible;
    if fields != [] {
      var n := |fields| - 1;
      var init, last := fields[..n], fields[n];
      assert fields == init + [last];
      FieldsMeaning(store, symbol, init, cfg, asOf);
      var rows := Ordered(store, symbol, asOf);
      var before := FieldValues(rows, symbol, init, cfg, asOf);
      if before.Err? {
        var j: nat :| FirstFailingField(store, symbol, init, cfg, asOf, before.error, j);
        assert FirstFailingField(store, symbol, fields, cfg, asOf, before.error, j);
      } else if !KeyColumn(last) {
        var outcome := FieldOutcome(rows, symbol, last, cfg(last), asOf);
        CellMeaning(store, symbol, asOf, last, cfg(last));
        MeansOkIff(store, symbol, asOf, last, cfg(last), outcome);
        if outcome.Err? {
          assert forall k :: 0 <= k < n ==> fields[k] in init;
          assert FirstFailingField(store, symbol, fields, cfg, asOf, outcome.error, n);
        }
      }
    }
  }

  /** Symbol i has visible rows and field j of it is the first to fail, all earlier symbols being without failure. */
  ghost predicate FirstFailure(store: seq<Row>, symbols: seq<string>, fields: seq<string>, cfg: PitConfig, asOf: int,
                               e: Staleness, i: nat, j: nat) {
    && i < |symbols| && HasRows(store, asOf)(symbols[i])
    && FirstFailingField(store, symbols[i], fields, cfg, asOf, e, j)
    && (forall k :: 0 <= k < i ==> !SymbolFails(store, symbols[k], fields, cfg, asOf))
  }

  ghost predicate SymbolFails(store: seq<Row>, symbol: string, fields: seq<string>, cfg: PitConfig, asOf: int) {
    HasRows(store, asOf)(symbol)
    && exists f :: f in fields && !KeyColumn(f) && FieldFails(store, symbol, asOf, f, cfg(f))
  }

  /** The snapshots describe, one by one, the symbols that have visible rows, in the order asked for. */
  ghost predicate SnapshotsMean(store: seq<Row>, shown: seq<string>, fields: seq<string>, cfg: PitConfig, asOf: int,
                                snaps: seq<Snapshot>) {
    && |snaps| == |shown|
    && forall i :: 0 <= i < |snaps| ==> SnapshotMeans(store, shown[i], fields, cfg, asOf, snaps[i])
  }

  lemma {:induction false} FilterSnoc(symbols: seq<string>, last: string, keep: string -> bool)
    ensures Filter(symbols + [last], keep) == Filter(symbols, keep) + if keep(last) then [last] else []
  {
    FilterConcat(symbols, [last], keep);
    assert [last][1..] == [];
  }

  lemma FailureOfPrefix(store: seq<Row>, init: seq<string>, last: string, fields: seq<string>, cfg: PitConfig,
                        asOf: int, e: Staleness, i: nat, j: nat)
    requires FirstFailure(store, init, fields, cfg, asOf, e, i, j)
    ensures FirstFailure(store, init + [last], fields, cfg, asOf, e, i, j)
  {
    hide HasRows, FirstFailingField, SymbolFails;
    assert forall k :: 0 <= k <= i ==> (init + [last])[k] == init[k];
  }

  /**
   * as_of(T) read off the store. It is an error exactly when some requested symbol with visible rows has a
   * requested field whose policy is FAIL and which no observation at most ttl days old supplies; the error is
   * that of the first such symbol and field. Otherwise there is one snapshot for each requested symbol with
   * visible rows, dated by its anchor, whose cells are the anchor's values under REJECT, the latest non-null
   * ones under FORWARD, and NaN where WARN covers a missing or stale one.
   */
  ghost predicate AnswerMeans(store: seq<Row>, symbols: seq<string>, fields: seq<string>, cfg: PitConfig, asOf: int,
                              answer: Result<seq<Snapshot>, Staleness>) {
    match answer
    case Ok(snaps) =>
      && (forall s :: s in symbols ==> !SymbolFails(store, s, fields, cfg, asOf))
      && SnapshotsMean(store, Filter(symbols, HasRows(store, asOf)), fields, cfg, asOf, snaps)
    case Err(e) =>
      exists i: nat, j: nat :: FirstFailure(store, symbols, fields, cfg, asOf, e, i, j)
  }

  lemma {:induction false} AsOfMeans(store: seq<Row>, symbols: seq<string>, fields: seq<string>, cfg: PitConfig, asOf: int)
    ensures AnswerMeans(store, symbols, fields, cfg, asOf, AsOf(store, symbols, fields, cfg, asOf))
    ensures AsOf(store, symbols, fields, cfg, asOf).Err?
      <==> exists s :: s in symbols && SymbolFails(store, s, fields, cfg, asOf)
    decreases |symbols|
  {
    hide SymbolFails, SnapshotMeans, FirstFailingField, FieldValues, Ordered, Visible, Filter;
    if symbols == [] {
      assert Filter(symbols, HasRows(store, asOf)) == [];
    } else {
      var n := |symbols| - 1;
      var init, last := symbols[..n], symbols[n];
      assert symbols == init + [last];
      AsOfMeans(store, init, fields, cfg, asOf);
      FilterSnoc(init, last, HasRows(store, asOf));
      var before := AsOf(store, init, fields, cfg, asOf);
      if before.Err? {
        var i: nat, j: nat :| FirstFailure(store, init, fields, cfg, asOf, before.error, i, j);
        assert AsOf(store, symbols, fields, cfg, asOf) == Err(before.error);
        FailureOfPrefix(store, init, last, fields, cfg, asOf, before.error, i, j);
      } else {
        LastSymbol(store, last, fields, cfg, asOf);
        if HasRows(store, asOf)(last) {
          var values := FieldValues(Ordered(store, last, asOf), last, fields, cfg, asOf);
          if values.Err? {
            var j: nat :| FirstFailingField(store, last, fields, cfg, asOf, values.error, j);
            assert forall k :: 0 <= k < n ==> symbols[k] in init;
            assert FirstFailure(store, symbols, fields, cfg, asOf, values.error, n, j);
          }
        }
      }
    }
  }

  lemma HasRowsIff(store: seq<Row>, symbol: string, asOf: int)
    ensures HasRows(store, asOf)(symbol) <==> Visible(store, symbol, asOf) != []
  {
    if q :| q in store && q.symbol == symbol && q.valid <= asOf && q.know <= asOf {
      assert VisibleTo(symbol, asOf)(q);
      assert q in Visible(store, symbol, asOf);
    }
    if Visible(store, symbol, asOf) != [] {
      var q := Visible(store, symbol, asOf)[0];
      assert q in Visible(store, symbol, asOf);
      assert VisibleTo(symbol, asOf)(q);
    }
  }

  lemma LastSymbol(store: seq<Row>, symbol: string, fields: seq<string>, cfg: PitConfig, asOf: int)
    ensures !HasRows(store, asOf)(symbol) ==> Ordered(store, symbol, asOf) == [] && !SymbolFails(store, symbol, fields, cfg, asOf)
    ensures HasRows(store, asOf)(symbol) ==> Ordered(store, symbol, asOf) != []
    ensures HasRows(store, asOf)(symbol) ==>
      match FieldValues(Ordered(store, symbol, asOf), symbol, fields, cfg, asOf)
      case Ok(_) =>
        && !SymbolFails(store, symbol, fields, cfg, asOf)
        && SnapshotMeans(store, symbol, fields, cfg, asOf, SnapshotOf(Ordered(store, symbol, asOf), symbol, fields, cfg, asOf).value)
      case Err(e) =>
        && SymbolFails(store, symbol, fields, cfg, asOf)
        && exists j: nat :: FirstFailingField(store, symbol, fields, cfg, asOf, e, j)
  {
    hide Ordered, Visible, FieldValues, CellMeans, FieldFails, Anchor;
    HasRowsIff(store, symbol, asOf);
    if HasRows(store, asOf)(symbol) {
      FieldsMeaning(store, symbol, fields, cfg, asOf);
      AnchorIsHead(store, symbol, asOf);
      var values := FieldValues(Ordered(store, symbol, asOf), symbol, fields, cfg, asOf);
      if values.Err? {
        var j: nat :| FirstFailingField(store, symbol, fields, cfg, asOf, values.error, j);
        MeansOkIff(store, symbol, asOf, fields[j], cfg(fields[j]), Err(values.error));
        assert fields[j] in fields;
      }
    }
  }

  // ---------------------------------------------------------------------------
  // The reading determines the answer
  // ---------------------------------------------------------------------------

  lemma AnchorUnique(store: seq<Row>, symbol: string, asOf: int, r: Row, q: Row)
    requires Anchor(store, symbol, asOf, r) && Anchor(store, symbol, asOf, q)
    ensures r == q
  {
    hide FirstStored;
    FirstHolds(store, KeyOf(symbol, asOf, r), r);
    FirstHolds(store, KeyOf(symbol, asOf, q), q);
    assert LatestFirst(r, q) && LatestFirst(q, r);
    SameKeySameRow(store, symbol, asOf, r, q);
  }

  lemma ObservedUnique(store: seq<Row>, symbol: string, asOf: int, field: string, fill: FillPolicy, r: Row, q: Row)
    requires Observed(store, symbol, asOf, field, fill, r) && Observed(store, symbol, asOf, field, fill, q)
    ensures r == q
  {
    hide Anchor, FirstStored;
    if fill == Reject {
      AnchorUnique(store, symbol, asOf, r, q);
    } else {
      assert LatestFirst(r, q) && LatestFirst(q, r);
      assert r.valid == q.valid && r.know == q.know;
      forall x ensures ValuedKeyOf(symbol, asOf, field, r)(x) <==> ValuedKeyOf(symbol, asOf, field, q)(x) {
        assert KeyOf(symbol, asOf, r)(x) <==> KeyOf(symbol, asOf, q)(x);
      }
      SamePredicate(store, ValuedKeyOf(symbol, asOf, field, r), ValuedKeyOf(symbol, asOf, field, q), q);
      FirstUnique(store, ValuedKeyOf(symbol, asOf, field, r), r, q);
    }
  }

  lemma SamePredicate(store: seq<Row>, p: Row -> bool, p': Row -> bool, r: Row)
    requires FirstStored(store, p', r) && forall q :: p(q) <==> p'(q)
    ensures FirstStored(store, p, r)
  {
  }

  /** A cell's meaning admits one outcome. */
  lemma CellUnique(store: seq<Row>, symbol: string, asOf: int, field: string, cfg: FieldConfig,
                   a: Result<Option<real>, Staleness>, b: Result<Option<real>, Staleness>)
    requires CellMeans(store, symbol, asOf, field, cfg, a) && CellMeans(store, symbol, asOf, field, cfg, b)
    ensures a == b
  {
    hide Observed;
    MeansOkIff(store, symbol, asOf, field, cfg, a);
    MeansOkIff(store, symbol, asOf, field, cfg, b);
    forall r, q | Observed(store, symbol, asOf, field, cfg.fill, r) && Observed(store, symbol, asOf, field, cfg.fill, q)
      ensures r == q && r in store
    {
      ObservedUnique(store, symbol, asOf, field, cfg.fill, r, q);
      ObservedIsStored(store, symbol, asOf, field, cfg.fill, r);
    }
  }

  lemma SnapshotUnique(store: seq<Row>, symbol: string, fields: seq<string>, cfg: PitConfig, asOf: int, a: Snapshot, b: Snapshot)
    requires SnapshotMeans(store, symbol, fields, cfg, asOf, a) && SnapshotMeans(store, symbol, fields, cfg, asOf, b)
    ensures a == b
  {
    hide Anchor, CellMeans;
    var r :| Anchor(store, symbol, asOf, r) && a.valid == r.valid;
    var q :| Anchor(store, symbol, asOf, q) && b.valid == q.valid;
    AnchorUnique(store, symbol, asOf, r, q);
    forall f | f in a.values ensures a.values[f] == b.values[f] {
      CellUnique(store, symbol, asOf, f, cfg(f), Ok(a.values[f]), Ok(b.values[f]));
    }
    assert a.values == b.values;
  }

  lemma FailingFieldUnique(store: seq<Row>, symbol: string, fields: seq<string>, cfg: PitConfig, asOf: int,
                           e: Staleness, j: nat, e': Staleness, j': nat)
    requires FirstFailingField(store, symbol, fields, cfg, asOf, e, j)
    requires FirstFailingField(store, symbol, fields, cfg, asOf, e', j')
    ensures j == j' && e == e'
  {
    hide CellMeans, FieldFails;
    MeansOkIff(store, symbol, asOf, fields[j], cfg(fields[j]), Err(e));
    MeansOkIff(store, symbol, asOf, fields[j'], cfg(fields[j']), Err(e'));
    assert j == j';
    CellUnique(store, symbol, asOf, fields[j], cfg(fields[j]), Err(e), Err(e'));
  }

  lemma FailingSymbol(store: seq<Row>, symbol: string, fields: seq<string>, cfg: PitConfig, asOf: int, e: Staleness, j: nat)
    requires HasRows(store, asOf)(symbol) && FirstFailingField(store, symbol, fields, cfg, asOf, e, j)
    ensures SymbolFails(store, symbol, fields, cfg, asOf)
  {
    hide CellMeans, FieldFails;
    MeansOkIff(store, symbol, asOf, fields[j], cfg(fields[j]), Err(e));
    assert fields[j] in fields;
  }

  lemma FailureUnique(store: seq<Row>, symbols: seq<string>, fields: seq<string>, cfg: PitConfig, asOf: int,
                      e: Staleness, i: nat, j: nat, e': Staleness, i': nat, j': nat)
    requires FirstFailure(store, symbols, fields, cfg, asOf, e, i, j)
    requires FirstFailure(store, symbols, fields, cfg, asOf, e', i', j')
    ensures e == e'
  {
    hide FirstFailingField, SymbolFails, HasRows;
    FailingSymbol(store, symbols[i], fields, cfg, asOf, e, j);
    FailingSymbol(store, symbols[i'], fields, cfg, asOf, e', j');
    assert i == i';
    FailingFieldUnique(store, symbols[i], fields, cfg, asOf, e, j, e', j');
  }

  lemma AnswerUnique(store: seq<Row>, symbols: seq<string>, fields: seq<string>, cfg: PitConfig, asOf: int,
                     a: Result<seq<Snapshot>, Staleness>, b: Result<seq<Snapshot>, Staleness>)
    requires AnswerMeans(store, symbols, fields, cfg, asOf, a) && AnswerMeans(store, symbols, fields, cfg, asOf, b)
    ensures a == b
  {
    hide FirstFailure, SymbolFails, SnapshotMeans, Filter, HasRows;
    if a.Ok? && b.Ok? {
      var shown := Filter(symbols, HasRows(store, asOf));
      forall i | 0 <= i < |shown| ensures a.value[i] == b.value[i] {
        SnapshotUnique(store, shown[i], fields, cfg, asOf, a.value[i], b.value[i]);
      }
      assert a.value == b.value;
    } else if a.Err? && b.Err? {
      var i: nat, j: nat :| FirstFailure(store, symbols, fields, cfg, asOf, a.error, i, j);
      var i': nat, j': nat :| FirstFailure(store, symbols, fields, cfg, asOf, b.error, i', j');
      FailureUnique(store, symbols, fields, cfg, asOf, a.error, i, j, b.error, i', j');
    } else {
      ErrorSymbol(store, symbols, fields, cfg, asOf, if a.Err? then a.error else b.error);
    }
  }

  lemma ErrorSymbol(store: seq<Row>, symbols: seq<string>, fields: seq<string>, cfg: PitConfig, asOf: int, e: Staleness)
    requires AnswerMeans(store, symbols, fields, cfg, asOf, Err(e))
    ensures exists s :: s in symbols && SymbolFails(store, s, fields, cfg, asOf)
  {
    hide FirstFailingField, SymbolFails, HasRows;
    var i: nat, j: nat :| FirstFailure(store, symbols, fields, cfg, asOf, e, i, j);
    FailingSymbol(store, symbols[i], fields, cfg, asOf, e, j);
    assert symbols[i] in symbols;
  }

  /** as_of(T) returns an answer exactly when that answer is what the stored rows mean. */
  lemma AsOfMeaning(store: seq<Row>, symbols: seq<string>, fields: seq<string>, cfg: PitConfig, asOf: int,
                    answer: Result<seq<Snapshot>, Staleness>)
    ensures AsOf(store, symbols, fields, cfg, asOf) == answer <==> AnswerMeans(store, symbols, fields, cfg, asOf, answer)
    ensures AsOf(store, symbols, fields, cfg, asOf).Err?
      <==> exists s :: s in symbols && SymbolFails(store, s, fields, cfg, asOf)
  {
    hide AnswerMeans, AsOf, SymbolFails;
    AsOfMeans(store, symbols, fields, cfg, asOf);
    if AnswerMeans(store, symbols, fields, cfg, asOf, answer) {
      AnswerUnique(store, symbols, fields, cfg, asOf, answer, AsOf(store, symbols, fields, cfg, asOf));
    }
  }
}
