/** The point-in-time view: append-only chunks, snapshots as known at a date, no lookahead. */
module DataViewModel {
  import opened Common
  import opened Ordering

  datatype Row = Row(symbol: string, valid: int, know: int, cells: map<string, Option<real>>)
  {
    /** A column the row's frame lacks reads as null. */
    function Cell(field: string): Option<real> {
      if field in cells then cells[field] else None
    }
  }

  datatype FillPolicy = Forward | Reject
  datatype MissingPolicy = Warn | Fail
  datatype FieldConfig = FieldConfig(ttlDays: int, fill: FillPolicy, missing: MissingPolicy)

  /** The resolved policy of each field. */
  type PitConfig = string -> FieldConfig

  const RESERVED := {"valid_time", "knowledge_time", "symbol"}

  datatype Staleness = MissingField(field: string, symbol: string) | StaleField(field: string, symbol: string)

  datatype Snapshot = Snapshot(symbol: string, valid: int, know: int, values: map<string, Option<real>>)

  // ---------------------------------------------------------------------------
  // Storing
  // ---------------------------------------------------------------------------

  predicate KnowThenValid(a: Row, b: Row) {
    a.know < b.know || (a.know == b.know && a.valid <= b.valid)
  }

  predicate LatestFirst(a: Row, b: Row) {
    a.valid > b.valid || (a.valid == b.valid && a.know >= b.know)
  }

  function StoreOrder(): (Row, Row) -> bool {
    (a: Row, b: Row) => KnowThenValid(a, b)
  }

  function SnapshotOrder(): (Row, Row) -> bool {
    (a: Row, b: Row) => LatestFirst(a, b)
  }

  lemma OrdersAreTotal()
    ensures TotalPreorder(StoreOrder()) && TotalPreorder(SnapshotOrder())
  {
  }

  /** One registered frame, sorted by (knowledge, valid), ties in frame order. */
  function Chunk(rows: seq<Row>): seq<Row> {
    Sort(rows, StoreOrder())
  }

  function Concat(chunks: seq<seq<Row>>): seq<Row>
    decreases |chunks|
  {
    if chunks == [] then [] else Concat(chunks[..|chunks| - 1]) + chunks[|chunks| - 1]
  }

  function ChunksOf(frames: seq<seq<Row>>): (r: seq<seq<Row>>)
    ensures |r| == |frames|
    ensures forall i :: 0 <= i < |frames| ==> r[i] == Chunk(frames[i])
  {
    seq(|frames|, i requires 0 <= i < |frames| => Chunk(frames[i]))
  }

  // ---------------------------------------------------------------------------
  // Reading
  // ---------------------------------------------------------------------------

  function VisibleTo(symbol: string, asOf: int): Row -> bool {
    (r: Row) => r.symbol == symbol && r.valid <= asOf && r.know <= asOf
  }

  function Visible(store: seq<Row>, symbol: string, asOf: int): seq<Row> {
    Filter(store, VisibleTo(symbol, asOf))
  }

  function Ordered(store: seq<Row>, symbol: string, asOf: int): (r: seq<Row>)
    ensures |r| == |Visible(store, symbol, asOf)|
  {
    Sort(Visible(store, symbol, asOf), SnapshotOrder())
  }

  /** First row with a value for the field, or the length. */
  function FirstNonNull(rows: seq<Row>, field: string): (i: nat)
    ensures i <= |rows|
    ensures i < |rows| ==> rows[i].Cell(field).Some?
    ensures forall k :: 0 <= k < i ==> rows[k].Cell(field).None?
  {
    if rows == [] || rows[0].Cell(field).Some? then 0 else 1 + FirstNonNull(rows[1..], field)
  }

  /** Value and knowledge date of the observation used; rows are newest first and not empty. */
  function ResolveField(rows: seq<Row>, field: string, fill: FillPolicy): (Option<real>, int)
    requires rows != []
  {
    if fill == Reject then (rows[0].Cell(field), rows[0].know)
    else
      var i := FirstNonNull(rows, field);
      if i < |rows| then (rows[i].Cell(field), rows[i].know) else (None, rows[0].know)
  }

  /** The cell of one field: a value, NaN, or the staleness error. */
  function FieldOutcome(rows: seq<Row>, symbol: string, field: string, cfg: FieldConfig, asOf: int)
    : Result<Option<real>, Staleness>
    requires rows != []
  {
    var (value, know) := ResolveField(rows, field, cfg.fill);
    if value.None? then
      if cfg.missing == Fail then Err(MissingField(field, symbol)) else Ok(None)
    else if asOf - know > cfg.ttlDays then
      if cfg.missing == Fail then Err(StaleField(field, symbol)) else Ok(None)
    else Ok(value)
  }

  /** Cells of the requested fields, in order; the first error wins. */
  function FieldValues(rows: seq<Row>, symbol: string, fields: seq<string>, cfg: PitConfig, asOf: int)
    : Result<map<string, Option<real>>, Staleness>
    requires rows != []
    decreases |fields|
  {
    if fields == [] then Ok(map[])
    else
      var f := fields[|fields| - 1];
      match FieldValues(rows, symbol, fields[..|fields| - 1], cfg, asOf)
      case Err(e) => Err(e)
      case Ok(values) =>
        if f in RESERVED then Ok(values)
        else
          match FieldOutcome(rows, symbol, f, cfg(f), asOf)
          case Err(e) => Err(e)
          case Ok(cell) => Ok(values[f := cell])
  }

  function SnapshotOf(rows: seq<Row>, symbol: string, fields: seq<string>, cfg: PitConfig, asOf: int)
    : Result<Snapshot, Staleness>
    requires rows != []
  {
    match FieldValues(rows, symbol, fields, cfg, asOf)
    case Err(e) => Err(e)
    case Ok(values) => Ok(Snapshot(symbol, rows[0].valid, asOf, values))
  }

  /** One row per symbol with anything visible, in the order asked for; the first error escapes. */
  function AsOf(store: seq<Row>, symbols: seq<string>, fields: seq<string>, cfg: PitConfig, asOf: int)
    : Result<seq<Snapshot>, Staleness>
    decreases |symbols|
  {
    if symbols == [] then Ok([])
    else
      var s := symbols[|symbols| - 1];
      match AsOf(store, symbols[..|symbols| - 1], fields, cfg, asOf)
      case Err(e) => Err(e)
      case Ok(snaps) =>
        var rows := Ordered(store, s, asOf);
        if rows == [] then Ok(snaps)
        else
          match SnapshotOf(rows, s, fields, cfg, asOf)
          case Err(e) => Err(e)
          case Ok(snap) => Ok(snaps + [snap])
  }

  // ---------------------------------------------------------------------------
  // No lookahead
  // ---------------------------------------------------------------------------

  function KnownAt(asOf: int): Row -> bool {
    (r: Row) => r.valid <= asOf && r.know <= asOf
  }

  /** The registration history without any row that is not yet known; a frame left empty is not registered. */
  function KnownFrames(frames: seq<seq<Row>>, asOf: int): (known: seq<seq<Row>>)
    ensures forall i, r :: 0 <= i < |known| && r in known[i] ==> r.valid <= asOf && r.know <= asOf
    decreases |frames|
  {
    if frames == [] then []
    else
      var rest := KnownFrames(frames[..|frames| - 1], asOf);
      var known := Filter(frames[|frames| - 1], KnownAt(asOf));
      if known == [] then rest else rest + [known]
  }

  lemma ConcatSnoc(chunks: seq<seq<Row>>, chunk: seq<Row>)
    ensures Concat(chunks + [chunk]) == Concat(chunks) + chunk
  {
    assert (chunks + [chunk])[..|chunks|] == chunks;
  }

  lemma VisibleInChunk(rows: seq<Row>, symbol: string, asOf: int)
    ensures Filter(Chunk(rows), VisibleTo(symbol, asOf))
         == Filter(Chunk(Filter(rows, KnownAt(asOf))), VisibleTo(symbol, asOf))
  {
    OrdersAreTotal();
    FilterSort(rows, StoreOrder(), VisibleTo(symbol, asOf));
    FilterSort(Filter(rows, KnownAt(asOf)), StoreOrder(), VisibleTo(symbol, asOf));
    FilterTwice(rows, VisibleTo(symbol, asOf), KnownAt(asOf));
  }

  lemma {:induction false} VisibleUnchanged(frames: seq<seq<Row>>, symbol: string, asOf: int)
    ensures Visible(Concat(ChunksOf(frames)), symbol, asOf)
         == Visible(Concat(ChunksOf(KnownFrames(frames, asOf))), symbol, asOf)
    decreases |frames|
  {
    hide Chunk, Filter, Concat;
    if frames == [] {
      assert ChunksOf(frames) == ChunksOf(KnownFrames(frames, asOf));
    } else {
      var n := |frames| - 1;
      var known := Filter(frames[n], KnownAt(asOf));
      var rest := KnownFrames(frames[..n], asOf);
      VisibleUnchanged(frames[..n], symbol, asOf);
      VisibleInChunk(frames[n], symbol, asOf);
      assert ChunksOf(frames) == ChunksOf(frames[..n]) + [Chunk(frames[n])];
      ConcatSnoc(ChunksOf(frames[..n]), Chunk(frames[n]));
      FilterConcat(Concat(ChunksOf(frames[..n])), Chunk(frames[n]), VisibleTo(symbol, asOf));
      NothingVisible(known, symbol, asOf);
      if known != [] {
        assert ChunksOf(rest + [known]) == ChunksOf(rest) + [Chunk(known)];
        ConcatSnoc(ChunksOf(rest), Chunk(known));
        FilterConcat(Concat(ChunksOf(rest)), Chunk(known), VisibleTo(symbol, asOf));
      }
    }
  }

  lemma NothingVisible(rows: seq<Row>, symbol: string, asOf: int)
    ensures rows == [] ==> Filter(Chunk(rows), VisibleTo(symbol, asOf)) == []
  {
  }

  lemma {:induction false} AsOfFromVisible(a: seq<Row>, b: seq<Row>, symbols: seq<string>,
                                           fields: seq<string>, cfg: PitConfig, asOf: int)
    requires forall s :: Visible(a, s, asOf) == Visible(b, s, asOf)
    ensures AsOf(a, symbols, fields, cfg, asOf) == AsOf(b, symbols, fields, cfg, asOf)
    decreases |symbols|
  {
    hide Visible, SnapshotOf, Sort;
    if symbols != [] { AsOfFromVisible(a, b, symbols[..|symbols| - 1], fields, cfg, asOf); }
  }

  /**
   * as_of(T) on any registration history, staleness errors included, is as_of(T) on that history with every
   * row not yet known at T removed before registration.
   */
  lemma NoLookahead(frames: seq<seq<Row>>, symbols: seq<string>, fields: seq<string>, cfg: PitConfig, asOf: int)
    ensures AsOf(Concat(ChunksOf(frames)), symbols, fields, cfg, asOf)
         == AsOf(Concat(ChunksOf(KnownFrames(frames, asOf))), symbols, fields, cfg, asOf)
  {
    hide Visible, AsOf, Concat;
    var a, b := Concat(ChunksOf(frames)), Concat(ChunksOf(KnownFrames(frames, asOf)));
    forall s ensures Visible(a, s, asOf) == Visible(b, s, asOf) {
      VisibleUnchanged(frames, s, asOf);
    }
    AsOfFromVisible(a, b, symbols, fields, cfg, asOf);
  }

  // ---------------------------------------------------------------------------
  // What a snapshot row means
  // ---------------------------------------------------------------------------

  lemma OrderedFacts(store: seq<Row>, symbol: string, asOf: int)
    ensures var rows := Ordered(store, symbol, asOf);
      && Sorted(rows, SnapshotOrder())
      && (forall r :: r in rows <==> r in store && VisibleTo(symbol, asOf)(r))
  {
    OrdersAreTotal();
    SortSorted(Visible(store, symbol, asOf), SnapshotOrder());
    SortMembers(Visible(store, symbol, asOf), SnapshotOrder());
  }

  /** Ties between equal (valid, knowledge) keys keep the order in which the rows were stored. */
  lemma OrderedIsStable(store: seq<Row>, symbol: string, asOf: int, valid: int, know: int)
    ensures var sameKey := (r: Row) => r.valid == valid && r.know == know;
      Filter(Ordered(store, symbol, asOf), sameKey) == Filter(Visible(store, symbol, asOf), sameKey)
  {
    OrdersAreTotal();
    var sameKey := (r: Row) => r.valid == valid && r.know == know;
    FilterSort(Visible(store, symbol, asOf), SnapshotOrder(), sameKey);
    SortOfEquals(Filter(Visible(store, symbol, asOf), sameKey), SnapshotOrder());
  }

  lemma {:induction false} SortOfEquals(rows: seq<Row>, leq: (Row, Row) -> bool)
    requires forall a, b :: a in rows && b in rows ==> leq(a, b)
    ensures Sort(rows, leq) == rows
  {
    if rows != [] {
      SortOfEquals(rows[1..], leq);
      assert rows == [rows[0]] + rows[1..];
    }
  }

  /** A chunk holds the frame's rows by ascending (knowledge, valid), rows of one key in frame order. */
  lemma ChunkFacts(rows: seq<Row>, valid: int, know: int)
    ensures multiset(Chunk(rows)) == multiset(rows) && |Chunk(rows)| == |rows|
    ensures forall i, j :: 0 <= i < j < |rows| ==>
      var a, b := Chunk(rows)[i], Chunk(rows)[j];
      a.know < b.know || (a.know == b.know && a.valid <= b.valid)
    ensures var sameKey := (r: Row) => r.valid == valid && r.know == know;
      Filter(Chunk(rows), sameKey) == Filter(rows, sameKey)
  {
    OrdersAreTotal();
    SortSorted(rows, StoreOrder());
    forall i, j | 0 <= i < j < |rows| ensures KnowThenValid(Chunk(rows)[i], Chunk(rows)[j]) {
      assert StoreOrder()(Chunk(rows)[i], Chunk(rows)[j]);
    }
    var sameKey := (r: Row) => r.valid == valid && r.know == know;
    FilterSort(rows, StoreOrder(), sameKey);
    SortOfEquals(Filter(rows, sameKey), StoreOrder());
  }

  /**
   * The anchor's (valid, knowledge) pair is the greatest among the symbol's rows with both dates at most T,
   * and as T grows the pair never decreases.
   */
  lemma AnchorIsGreatest(store: seq<Row>, symbol: string, asOf: int, later: int)
    requires asOf <= later && Visible(store, symbol, asOf) != []
    ensures var anchor := Ordered(store, symbol, asOf)[0];
      && anchor in store && anchor.symbol == symbol && anchor.valid <= asOf && anchor.know <= asOf
      && (forall q :: q in store && q.symbol == symbol && q.valid <= asOf && q.know <= asOf ==>
            q.valid < anchor.valid || (q.valid == anchor.valid && q.know <= anchor.know))
    ensures Visible(store, symbol, later) != []
    ensures var before, after := Ordered(store, symbol, asOf)[0], Ordered(store, symbol, later)[0];
      before.valid < after.valid || (before.valid == after.valid && before.know <= after.know)
  {
    HeadIsGreatest(store, symbol, asOf);
    var anchor := Ordered(store, symbol, asOf)[0];
    assert anchor in Visible(store, symbol, later);
    HeadIsGreatest(store, symbol, later);
  }

  lemma HeadIsGreatest(store: seq<Row>, symbol: string, asOf: int)
    requires Visible(store, symbol, asOf) != []
    ensures var anchor := Ordered(store, symbol, asOf)[0];
      && anchor in store && VisibleTo(symbol, asOf)(anchor)
      && (forall r :: r in store && VisibleTo(symbol, asOf)(r) ==> LatestFirst(anchor, r))
  {
    OrderedFacts(store, symbol, asOf);
    var rows := Ordered(store, symbol, asOf);
    assert rows[0] in rows;
    forall r | r in store && VisibleTo(symbol, asOf)(r) ensures LatestFirst(rows[0], r) {
      assert r in rows;
      var k :| 0 <= k < |rows| && rows[k] == r;
      assert k > 0 ==> SnapshotOrder()(rows[0], rows[k]);
    }
  }

  /**
   * r is a row of the symbol with both dates at most T and a value, and every such row with a greater
   * (valid, knowledge) pair is null there.
   */
  ghost predicate LatestValue(store: seq<Row>, symbol: string, asOf: int, field: string, r: Row) {
    && r in store && r.symbol == symbol && r.valid <= asOf && r.know <= asOf && r.Cell(field).Some?
    && forall q :: q in store && q.symbol == symbol && q.valid <= asOf && q.know <= asOf ==>
         q.valid > r.valid || (q.valid == r.valid && q.know > r.know) ==> q.Cell(field).None?
  }

  lemma SortedPair(rows: seq<Row>, i: nat, k: nat)
    requires Sorted(rows, SnapshotOrder())
    ensures i < k < |rows| ==> LatestFirst(rows[i], rows[k])
  {
    assert i < k < |rows| ==> SnapshotOrder()(rows[i], rows[k]);
  }

  lemma SortedBefore(rows: seq<Row>, i: nat, q: Row) returns (k: nat)
    requires Sorted(rows, SnapshotOrder()) && i < |rows| && q in rows && !LatestFirst(rows[i], q)
    ensures k < i && rows[k] == q
  {
    k :| 0 <= k < |rows| && rows[k] == q;
    SortedPair(rows, i, k);
  }

  lemma FirstNonNullIsLatest(store: seq<Row>, symbol: string, asOf: int, field: string)
    requires FirstNonNull(Ordered(store, symbol, asOf), field) < |Ordered(store, symbol, asOf)|
    ensures var rows := Ordered(store, symbol, asOf);
      LatestValue(store, symbol, asOf, field, rows[FirstNonNull(rows, field)])
  {
    OrderedFacts(store, symbol, asOf);
    var rows := Ordered(store, symbol, asOf);
    var i := FirstNonNull(rows, field);
    assert rows[i] in rows && VisibleTo(symbol, asOf)(rows[i]);
    forall q | q in store && VisibleTo(symbol, asOf)(q) && !LatestFirst(rows[i], q) ensures q.Cell(field).None? {
      var k := SortedBefore(rows, i, q);
    }
  }

  lemma AllNullIff(store: seq<Row>, symbol: string, asOf: int, field: string)
    ensures FirstNonNull(Ordered(store, symbol, asOf), field) == |Ordered(store, symbol, asOf)|
      <==> forall q :: q in store && VisibleTo(symbol, asOf)(q) ==> q.Cell(field).None?
  {
    hide Sort, Visible;
    OrderedFacts(store, symbol, asOf);
    var rows := Ordered(store, symbol, asOf);
    var i := FirstNonNull(rows, field);
    if i < |rows| {
      assert rows[i] in rows;
    } else {
      assert forall q :: q in rows ==> q.Cell(field).None?;
    }
  }

  /**
   * A forward-filled field comes from a visible row with a value such that every visible row with a later
   * (valid, knowledge) key is null there; it is null exactly when every visible row is.
   */
  lemma ForwardFillMeaning(store: seq<Row>, symbol: string, asOf: int, field: string)
    requires Visible(store, symbol, asOf) != []
    ensures var (value, know) := ResolveField(Ordered(store, symbol, asOf), field, Forward);
      && (value.Some? ==> exists r :: LatestValue(store, symbol, asOf, field, r) && r.Cell(field) == value && r.know == know)
      && (value.None? <==>
            forall q :: q in store && q.symbol == symbol && q.valid <= asOf && q.know <= asOf ==> q.Cell(field).None?)
  {
    hide LatestValue, Ordered, Visible, Sort;
    AllNullIff(store, symbol, asOf, field);
    if FirstNonNull(Ordered(store, symbol, asOf), field) < |Ordered(store, symbol, asOf)| {
      FirstNonNullIsLatest(store, symbol, asOf, field);
    }
  }

  /** The columns every snapshot has; asking for one as a field changes nothing. */
  ghost predicate KeyColumn(field: string) {
    field == "valid_time" || field == "knowledge_time" || field == "symbol"
  }

  lemma KeyColumnsAreReserved(field: string)
    ensures field in RESERVED <==> KeyColumn(field)
  {
  }

  lemma {:induction false} FieldValuesMeaning(rows: seq<Row>, symbol: string, fields: seq<string>,
                                              cfg: PitConfig, asOf: int)
    requires rows != []
    ensures match FieldValues(rows, symbol, fields, cfg, asOf)
      case Ok(values) =>
        && values.Keys == (set f | f in fields && !KeyColumn(f))
        && (forall f :: f in values ==> FieldOutcome(rows, symbol, f, cfg(f), asOf) == Ok(values[f]))
      case Err(e) =>
        exists f :: f in fields && !KeyColumn(f) && FieldOutcome(rows, symbol, f, cfg(f), asOf) == Err(e)
    decreases |fields|
  {
    hide FieldOutcome;
    if fields != [] {
      var init, last := fields[..|fields| - 1], fields[|fields| - 1];
      FieldValuesMeaning(rows, symbol, init, cfg, asOf);
      KeyColumnsAreReserved(last);
      hide KeyColumn;
      assert fields == init + [last];
    }
  }
}
