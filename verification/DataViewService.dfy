/** Registration, fixture seeding of the universe, and the snapshot loops. */
module DataViewService {
  import opened Common
  import opened Ordering
  import opened UniverseLog
  import opened DataViewModel

  datatype RawRow = RawRow(symbol: Option<string>, valid: int, know: int, cells: map<string, Option<real>>)

  datatype Frame = Frame(hasSymbol: bool, hasValid: bool, hasKnow: bool, rows: seq<RawRow>)

  datatype PitError = EmptyFrame | NoSymbolColumn | NullSymbol | BlankSymbol | NoValidColumn | NoKnowColumn

  function RowError(r: RawRow): Option<PitError> {
    if r.symbol.None? then Some(NullSymbol)
    else if Strip(r.symbol.value) == "" then Some(BlankSymbol)
    else None
  }

  /** The error of the first row with a bad symbol. */
  function SymbolError(rows: seq<RawRow>): Option<PitError> {
    if rows == [] then None
    else if RowError(rows[0]).Some? then RowError(rows[0])
    else SymbolError(rows[1..])
  }

  /** Symbols are checked before the temporal columns. */
  function FrameError(f: Frame): Option<PitError> {
    if f.rows == [] then Some(EmptyFrame)
    else if !f.hasSymbol then Some(NoSymbolColumn)
    else if SymbolError(f.rows).Some? then SymbolError(f.rows)
    else if !f.hasValid then Some(NoValidColumn)
    else if !f.hasKnow then Some(NoKnowColumn)
    else None
  }

  /** A symbol with a character other than white space. */
  ghost predicate ProperSymbol(r: RawRow) {
    r.symbol.Some? && exists k :: 0 <= k < |r.symbol.value| && !Space(r.symbol.value[k])
  }

  lemma {:induction false} SymbolErrorMeaning(rows: seq<RawRow>)
    ensures SymbolError(rows).None? <==> forall i :: 0 <= i < |rows| ==> ProperSymbol(rows[i])
    ensures SymbolError(rows).Some? ==>
      exists i :: 0 <= i < |rows| && !ProperSymbol(rows[i]) && (forall j :: 0 <= j < i ==> ProperSymbol(rows[j]))
        && SymbolError(rows) == Some(if rows[i].symbol.None? then NullSymbol else BlankSymbol)
  {
    hide ProperSymbol, Space, Strip;
    if rows != [] {
      RowErrorMeaning(rows[0]);
      SymbolErrorMeaning(rows[1..]);
      if RowError(rows[0]).None? && SymbolError(rows[1..]).Some? {
        var k :| 0 <= k < |rows| - 1 && !ProperSymbol(rows[1..][k])
          && (forall j :: 0 <= j < k ==> ProperSymbol(rows[1..][j]))
          && SymbolError(rows[1..]) == Some(if rows[1..][k].symbol.None? then NullSymbol else BlankSymbol);
        assert forall j :: 1 <= j <= k ==> rows[j] == rows[1..][j - 1];
        assert !ProperSymbol(rows[k + 1]);
      }
    }
  }

  lemma RowErrorMeaning(r: RawRow)
    ensures RowError(r)
         == if ProperSymbol(r) then None else Some(if r.symbol.None? then NullSymbol else BlankSymbol)
  {
    hide Space, Strip;
    if r.symbol.Some? { StripEmptyIff(r.symbol.value); }
  }

  /** A frame is refused for the first thing missing: rows, symbol column, proper symbols, the two date columns. */
  lemma FrameErrorMeaning(f: Frame)
    ensures FrameError(f).None?
      <==> f.rows != [] && f.hasSymbol && f.hasValid && f.hasKnow && forall i :: 0 <= i < |f.rows| ==> ProperSymbol(f.rows[i])
    ensures FrameError(f) == Some(EmptyFrame) <==> f.rows == []
    ensures FrameError(f) == Some(NoSymbolColumn) <==> f.rows != [] && !f.hasSymbol
    ensures FrameError(f) in {Some(NullSymbol), Some(BlankSymbol)}
      <==> f.rows != [] && f.hasSymbol && exists i :: 0 <= i < |f.rows| && !ProperSymbol(f.rows[i])
    ensures FrameError(f) == Some(NoKnowColumn) ==> f.hasValid && !f.hasKnow
    ensures FrameError(f) == Some(NoValidColumn) ==> !f.hasValid
  {
    hide ProperSymbol;
    SymbolErrorMeaning(f.rows);
  }

  function RowsOf(rows: seq<RawRow>): (r: seq<Row>)
    ensures |r| == |rows|
    ensures forall i :: 0 <= i < |rows| ==>
      && (rows[i].symbol.Some? ==> r[i].symbol == rows[i].symbol.value)
      && r[i].valid == rows[i].valid && r[i].know == rows[i].know
      && r[i].cells.Keys == rows[i].cells.Keys
      && forall f :: f in r[i].cells ==> r[i].cells[f] == rows[i].cells[f]
  {
    seq(|rows|, i requires 0 <= i < |rows| =>
      Row(if rows[i].symbol.Some? then rows[i].symbol.value else "", rows[i].valid, rows[i].know, rows[i].cells))
  }

  // ---------------------------------------------------------------------------
  // Seeding
  // ---------------------------------------------------------------------------

  /** Distinct symbols in order of first appearance. */
  function UniqueSymbols(rows: seq<Row>): (r: seq<string>)
    ensures forall s :: s in r <==> exists i :: 0 <= i < |rows| && rows[i].symbol == s
  {
    if rows == [] then []
    else
      var before := UniqueSymbols(rows[..|rows| - 1]);
      var last := rows[|rows| - 1].symbol;
      assert forall i :: 0 <= i < |rows| - 1 ==> rows[..|rows| - 1][i] == rows[i];
      if last in before then before else before + [last]
  }

  /** Earliest valid date of a symbol that occurs in the rows. */
  function FirstDate(rows: seq<Row>, symbol: string): (d: int)
    requires exists i :: 0 <= i < |rows| && rows[i].symbol == symbol
    ensures exists i :: 0 <= i < |rows| && rows[i].symbol == symbol && rows[i].valid == d
    ensures forall i :: 0 <= i < |rows| && rows[i].symbol == symbol ==> d <= rows[i].valid
    decreases |rows|
  {
    var init, last := rows[..|rows| - 1], rows[|rows| - 1];
    assert rows == init + [last];
    if exists i :: 0 <= i < |init| && init[i].symbol == symbol then
      var d := FirstDate(init, symbol);
      if last.symbol == symbol then Min(d, last.valid) else d
    else last.valid
  }

  function SeedSymbol(events: seq<Event>, rows: seq<Row>, symbol: string): seq<Event> {
    if Strip(symbol) == "" || symbol !in UniqueSymbols(rows) then events
    else
      var date := FirstDate(rows, symbol);
      if Active(events, Strip(symbol), date) then events
      else events + [Event(Strip(symbol), date, Listed, "fixture_seed")]
  }

  function SeedSymbols(events: seq<Event>, rows: seq<Row>, symbols: seq<string>): seq<Event> {
    if symbols == [] then events
    else SeedSymbol(SeedSymbols(events, rows, symbols[..|symbols| - 1]), rows, symbols[|symbols| - 1])
  }

  function SeedFrame(events: seq<Event>, rows: seq<Row>): seq<Event> {
    SeedSymbols(events, rows, UniqueSymbols(rows))
  }

  /** Events left by seeding into a log with each frame in turn. */
  function SeedAll(log: seq<Event>, frames: seq<seq<Row>>): seq<Event>
    decreases |frames|
  {
    if frames == [] then log
    else SeedFrame(SeedAll(log, frames[..|frames| - 1]), Chunk(frames[|frames| - 1]))
  }

  /** What seeding appends: a fixture-seed listing of a stripped symbol on the first date its raw symbol has in the rows. */
  ghost predicate SeedEvent(rows: seq<Row>, e: Event) {
    && e.kind == Listed && e.reason == "fixture_seed"
    && exists r :: r in rows && Strip(r.symbol) == e.symbol && r.valid == e.date
         && forall q :: q in rows && q.symbol == r.symbol ==> r.valid <= q.valid
  }

  lemma {:induction false} SeedingAppends(events: seq<Event>, rows: seq<Row>, symbols: seq<string>)
    ensures var after := SeedSymbols(events, rows, symbols);
      && |events| <= |after| && after[..|events|] == events
      && forall i :: |events| <= i < |after| ==> SeedEvent(rows, after[i])
    decreases |symbols|
  {
    hide Active, Strip, UniqueSymbols, FirstDate;
    if symbols != [] {
      var init, last := symbols[..|symbols| - 1], symbols[|symbols| - 1];
      SeedingAppends(events, rows, init);
      if last in UniqueSymbols(rows) {
        var i :| 0 <= i < |rows| && rows[i].symbol == last && rows[i].valid == FirstDate(rows, last);
        assert rows[i] in rows;
      }
    }
  }

  /** The symbol is not delisted on any date from the first to the last, both included. */
  ghost predicate NoDelist(events: seq<Event>, symbol: string, first: int, last: int) {
    forall e :: e in events && e.symbol == symbol && e.kind == Delisted && e.date <= last ==> e.date < first
  }

  ghost predicate SameDelists(a: seq<Event>, b: seq<Event>) {
    forall e: Event :: e.kind == Delisted ==> (e in a <==> e in b)
  }

  lemma SameDelistsSameGaps(a: seq<Event>, b: seq<Event>, symbol: string, first: int, last: int)
    requires SameDelists(a, b)
    ensures NoDelist(a, symbol, first, last) <==> NoDelist(b, symbol, first, last)
  {
  }

  /** A listing on a date puts the symbol in force from then on until the next delisting, and not before. */
  lemma ListingEffect(events: seq<Event>, added: Event, symbol: string, asOf: int)
    requires added.kind == Listed
    ensures SameDelists(events, events + [added])
    ensures Active(events + [added], symbol, asOf)
      <==> Active(events, symbol, asOf)
           || (added.symbol == symbol && added.date <= asOf && NoDelist(events, symbol, added.date, asOf))
  {
    var after := events + [added];
    assert forall e :: e in after <==> e in events || e == added;
    ActiveIff(events, symbol, asOf);
    ActiveIff(after, symbol, asOf);
    if added.symbol == symbol && added.date <= asOf && NoDelist(events, symbol, added.date, asOf) {
      assert InForce(after, symbol, asOf, added);
    }
    if e :| InForce(events, symbol, asOf, e) {
      assert InForce(after, symbol, asOf, e);
    }
    if e :| InForce(after, symbol, asOf, e) {
      assert InForce(events, symbol, asOf, e) || e == added;
    }
  }

  /** Where the symbol is active already, a listing on that date would change nothing afterwards. */
  lemma ActiveAbsorbsListing(events: seq<Event>, symbol: string, date: int, asOf: int)
    requires Active(events, symbol, date) && date <= asOf && NoDelist(events, symbol, date, asOf)
    ensures Active(events, symbol, asOf)
  {
    ActiveIff(events, symbol, date);
    var e :| InForce(events, symbol, date, e);
    assert InForce(events, symbol, asOf, e);
    ActiveIff(events, symbol, asOf);
  }

  /** The frame seeds this raw symbol on its first date, and no delisting since then is dated by asOf. */
  ghost predicate SeedsRaw(events: seq<Event>, rows: seq<Row>, raw: string, asOf: int) {
    && raw in UniqueSymbols(rows)
    && FirstDate(rows, raw) <= asOf && NoDelist(events, Strip(raw), FirstDate(rows, raw), asOf)
  }

  lemma SeedSymbolEffect(events: seq<Event>, rows: seq<Row>, raw: string, symbol: string, asOf: int)
    requires Strip(raw) != "" && raw in UniqueSymbols(rows)
    ensures SameDelists(events, SeedSymbol(events, rows, raw))
    ensures Active(SeedSymbol(events, rows, raw), symbol, asOf)
      <==> Active(events, symbol, asOf) || (Strip(raw) == symbol && SeedsRaw(events, rows, raw, asOf))
  {
    hide Active, UniqueSymbols, FirstDate, Strip, SameDelists, NoDelist;
    var date := FirstDate(rows, raw);
    ListingEffect(events, Event(Strip(raw), date, Listed, "fixture_seed"), symbol, asOf);
    SameDelistsReflexive(events);
    if Active(events, Strip(raw), date) && Strip(raw) == symbol && SeedsRaw(events, rows, raw, asOf) {
      ActiveAbsorbsListing(events, symbol, date, asOf);
    }
  }

  lemma SameDelistsReflexive(events: seq<Event>)
    ensures SameDelists(events, events)
  {
  }

  lemma SameDelistsTransitive(a: seq<Event>, b: seq<Event>, c: seq<Event>)
    requires SameDelists(a, b) && SameDelists(b, c)
    ensures SameDelists(a, c)
  {
  }

  lemma {:induction false} SeedSymbolsEffect(events: seq<Event>, rows: seq<Row>, raws: seq<string>,
                                             symbol: string, asOf: int)
    requires forall raw :: raw in raws ==> Strip(raw) != "" && raw in UniqueSymbols(rows)
    ensures SameDelists(events, SeedSymbols(events, rows, raws))
    ensures Active(SeedSymbols(events, rows, raws), symbol, asOf)
      <==> Active(events, symbol, asOf) || exists raw :: raw in raws && Strip(raw) == symbol && SeedsRaw(events, rows, raw, asOf)
  {
    hide Active, SeedSymbol, UniqueSymbols, FirstDate, SameDelists, NoDelist, Strip;
    if raws == [] {
      SameDelistsReflexive(events);
    } else {
      var init, last := raws[..|raws| - 1], raws[|raws| - 1];
      assert raws == init + [last];
      SeedSymbolsEffect(events, rows, init, symbol, asOf);
      var before := SeedSymbols(events, rows, init);
      SeedSymbolEffect(before, rows, last, symbol, asOf);
      SameDelistsTransitive(events, before, SeedSymbols(events, rows, raws));
      SameDelistsSameGaps(events, before, Strip(last), FirstDate(rows, last), asOf);
    }
  }

  ghost predicate Named(rows: seq<Row>) {
    forall i :: 0 <= i < |rows| ==> Strip(rows[i].symbol) != ""
  }

  function AnyRow(): Row -> bool {
    (r: Row) => true
  }

  /**
   * Of the rows considered, some earliest one of its raw symbol is valid by asOf and not followed by a
   * delisting dated by asOf.
   */
  ghost predicate Seeds(events: seq<Event>, rows: seq<Row>, considered: Row -> bool, symbol: string, asOf: int) {
    exists r :: SeedingRow(events, rows, considered, symbol, asOf, r)
  }

  ghost predicate SeedingRow(events: seq<Event>, rows: seq<Row>, considered: Row -> bool, symbol: string, asOf: int,
                             r: Row) {
    && r in rows && considered(r) && Strip(r.symbol) == symbol
    && (forall q :: q in rows && considered(q) && q.symbol == r.symbol ==> r.valid <= q.valid)
    && r.valid <= asOf && NoDelist(events, symbol, r.valid, asOf)
  }

  lemma SeedsByRaw(events: seq<Event>, rows: seq<Row>, symbol: string, asOf: int)
    ensures Seeds(events, rows, AnyRow(), symbol, asOf)
      <==> exists raw :: raw in UniqueSymbols(rows) && Strip(raw) == symbol && SeedsRaw(events, rows, raw, asOf)
  {
    hide NoDelist, Strip;
    if Seeds(events, rows, AnyRow(), symbol, asOf) {
      var r :| SeedingRow(events, rows, AnyRow(), symbol, asOf, r);
      var k :| 0 <= k < |rows| && rows[k] == r;
      assert r.symbol in UniqueSymbols(rows);
      FirstDateIs(rows, r);
      assert SeedsRaw(events, rows, r.symbol, asOf);
    }
    if raw :| raw in UniqueSymbols(rows) && Strip(raw) == symbol && SeedsRaw(events, rows, raw, asOf) {
      var i :| 0 <= i < |rows| && rows[i].symbol == raw && rows[i].valid == FirstDate(rows, raw);
      assert SeedingRow(events, rows, AnyRow(), symbol, asOf, rows[i]);
    }
  }

  lemma FirstDateIs(rows: seq<Row>, r: Row)
    requires r in rows && forall q :: q in rows && q.symbol == r.symbol ==> r.valid <= q.valid
    ensures r.symbol in UniqueSymbols(rows) && FirstDate(rows, r.symbol) == r.valid
  {
    var k :| 0 <= k < |rows| && rows[k] == r;
    var d := FirstDate(rows, r.symbol);
    var i :| 0 <= i < |rows| && rows[i].symbol == r.symbol && rows[i].valid == d;
    assert rows[i] in rows;
  }

  /** Only which rows there are matters, not their order or number. */
  lemma SeedsFromMembers(events: seq<Event>, a: seq<Row>, p: Row -> bool, b: seq<Row>, q: Row -> bool,
                         symbol: string, asOf: int)
    requires forall r :: r in a && p(r) <==> r in b && q(r)
    ensures Seeds(events, a, p, symbol, asOf) <==> Seeds(events, b, q, symbol, asOf)
  {
    hide NoDelist, Strip;
    forall r ensures SeedingRow(events, a, p, symbol, asOf, r) <==> SeedingRow(events, b, q, symbol, asOf, r) {}
  }

  lemma SeedsUnderSameDelists(a: seq<Event>, b: seq<Event>, rows: seq<Row>, p: Row -> bool, symbol: string, asOf: int)
    requires SameDelists(a, b)
    ensures Seeds(a, rows, p, symbol, asOf) <==> Seeds(b, rows, p, symbol, asOf)
  {
    hide NoDelist, SameDelists, Strip;
    forall r ensures SeedingRow(a, rows, p, symbol, asOf, r) <==> SeedingRow(b, rows, p, symbol, asOf, r) {
      SameDelistsSameGaps(a, b, symbol, r.valid, asOf);
    }
  }

  lemma NamedChunk(rows: seq<Row>)
    requires Named(rows)
    ensures forall raw :: raw in UniqueSymbols(Chunk(rows)) ==> Strip(raw) != ""
  {
    SortMembers(rows, StoreOrder());
    var chunk := Chunk(rows);
    forall raw | raw in UniqueSymbols(chunk) ensures Strip(raw) != "" {
      var i :| 0 <= i < |chunk| && chunk[i].symbol == raw;
      assert chunk[i] in rows;
    }
  }

  /** What one seeded registration does to membership, whatever the log already holds. */
  lemma SeedFrameEffect(events: seq<Event>, rows: seq<Row>, symbol: string, asOf: int)
    requires Named(rows)
    ensures SameDelists(events, SeedFrame(events, Chunk(rows)))
    ensures Active(SeedFrame(events, Chunk(rows)), symbol, asOf)
      <==> Active(events, symbol, asOf) || Seeds(events, rows, AnyRow(), symbol, asOf)
  {
    hide Active, SeedSymbols, Seeds, SeedsRaw, SameDelists, Strip, Named, UniqueSymbols;
    var chunk := Chunk(rows);
    NamedChunk(rows);
    SeedSymbolsEffect(events, chunk, UniqueSymbols(chunk), symbol, asOf);
    SeedsByRaw(events, chunk, symbol, asOf);
    SortMembers(rows, StoreOrder());
    SeedsFromMembers(events, rows, AnyRow(), chunk, AnyRow(), symbol, asOf);
  }

  ghost predicate SeedsInSome(log: seq<Event>, frames: seq<seq<Row>>, considered: Row -> bool, symbol: string, asOf: int) {
    exists i :: 0 <= i < |frames| && Seeds(log, frames[i], considered, symbol, asOf)
  }

  lemma SeedsInSomeSnoc(log: seq<Event>, frames: seq<seq<Row>>, frame: seq<Row>, p: Row -> bool, symbol: string, asOf: int)
    ensures SeedsInSome(log, frames + [frame], p, symbol, asOf)
      <==> SeedsInSome(log, frames, p, symbol, asOf) || Seeds(log, frame, p, symbol, asOf)
  {
    hide Seeds;
    var all := frames + [frame];
    assert all[|frames|] == frame;
    assert forall i :: 0 <= i < |frames| ==> all[i] == frames[i];
  }

  /**
   * A universe seeded by registrations, from whatever log: a symbol is active at T if it was, or if some
   * frame's first row of it, whenever that row became known, is valid by T with no delisting between.
   */
  lemma {:induction false} SeededMembership(log: seq<Event>, frames: seq<seq<Row>>, symbol: string, asOf: int)
    requires forall i :: 0 <= i < |frames| ==> Named(frames[i])
    ensures SameDelists(log, SeedAll(log, frames))
    ensures Active(SeedAll(log, frames), symbol, asOf)
      <==> Active(log, symbol, asOf) || SeedsInSome(log, frames, AnyRow(), symbol, asOf)
    decreases |frames|
  {
    hide SeedFrame, Seeds, Active, SameDelists, Named, SeedsInSome;
    if frames == [] {
      SameDelistsReflexive(log);
      NoFrameSeeds(log, AnyRow(), symbol, asOf);
    } else {
      var init, last := frames[..|frames| - 1], frames[|frames| - 1];
      assert frames == init + [last];
      SeededMembership(log, init, symbol, asOf);
      var before := SeedAll(log, init);
      SeedFrameEffect(before, last, symbol, asOf);
      SameDelistsTransitive(log, before, SeedAll(log, frames));
      SeedsUnderSameDelists(log, before, last, AnyRow(), symbol, asOf);
      SeedsInSomeSnoc(log, init, last, AnyRow(), symbol, asOf);
    }
  }

  lemma NoFrameSeeds(log: seq<Event>, p: Row -> bool, symbol: string, asOf: int)
    ensures !SeedsInSome(log, [], p, symbol, asOf)
  {
  }

  // ---------------------------------------------------------------------------
  // Seeding looks ahead
  // ---------------------------------------------------------------------------

  lemma {:induction false} SeedsInKnownFrames(log: seq<Event>, frames: seq<seq<Row>>, symbol: string, asOf: int)
    ensures SeedsInSome(log, KnownFrames(frames, asOf), AnyRow(), symbol, asOf)
      <==> SeedsInSome(log, frames, KnownAt(asOf), symbol, asOf)
    decreases |frames|
  {
    hide Seeds, SeedsInSome, Filter;
    if frames == [] {
      NoFrameSeeds(log, AnyRow(), symbol, asOf);
      NoFrameSeeds(log, KnownAt(asOf), symbol, asOf);
    } else {
      var init, last := frames[..|frames| - 1], frames[|frames| - 1];
      assert frames == init + [last];
      SeedsInKnownFrames(log, init, symbol, asOf);
      var known := Filter(last, KnownAt(asOf));
      SeedsFromMembers(log, known, AnyRow(), last, KnownAt(asOf), symbol, asOf);
      SeedsInSomeSnoc(log, init, last, KnownAt(asOf), symbol, asOf);
      SeedsInSomeSnoc(log, KnownFrames(init, asOf), known, AnyRow(), symbol, asOf);
      NoRowSeeds(log, AnyRow(), symbol, asOf);
    }
  }

  lemma NoRowSeeds(log: seq<Event>, p: Row -> bool, symbol: string, asOf: int)
    ensures !Seeds(log, [], p, symbol, asOf)
  {
  }

  lemma {:induction false} KnownFramesNamed(frames: seq<seq<Row>>, asOf: int)
    requires forall i :: 0 <= i < |frames| ==> Named(frames[i])
    ensures forall i :: 0 <= i < |KnownFrames(frames, asOf)| ==> Named(KnownFrames(frames, asOf)[i])
    decreases |frames|
  {
    hide Strip;
    if frames != [] {
      KnownFramesNamed(frames[..|frames| - 1], asOf);
      var last := frames[|frames| - 1];
      var known := Filter(last, KnownAt(asOf));
      forall i | 0 <= i < |known| ensures Strip(known[i].symbol) != "" {
        assert known[i] in last;
      }
    }
  }

  /** The seeded universe and the one seeded without the rows unknown at T agree on this symbol at T. */
  ghost predicate SeedingAgrees(log: seq<Event>, frames: seq<seq<Row>>, symbol: string, asOf: int) {
    Active(SeedAll(log, frames), symbol, asOf) <==> Active(SeedAll(log, KnownFrames(frames, asOf)), symbol, asOf)
  }

  /** The symbol is active before seeding, or the rows known at T seed it exactly when all the rows do. */
  ghost predicate KnownRowsDecide(log: seq<Event>, frames: seq<seq<Row>>, symbol: string, asOf: int) {
    Active(log, symbol, asOf)
    || (SeedsInSome(log, frames, AnyRow(), symbol, asOf) <==> SeedsInSome(log, frames, KnownAt(asOf), symbol, asOf))
  }

  lemma SeedingAgreesIff(log: seq<Event>, frames: seq<seq<Row>>, symbol: string, asOf: int)
    requires forall i :: 0 <= i < |frames| ==> Named(frames[i])
    ensures SeedingAgrees(log, frames, symbol, asOf) <==> KnownRowsDecide(log, frames, symbol, asOf)
  {
    hide Active, SeedAll, Named, SeedsInSome;
    SeededMembership(log, frames, symbol, asOf);
    KnownFramesNamed(frames, asOf);
    SeededMembership(log, KnownFrames(frames, asOf), symbol, asOf);
    SeedsInKnownFrames(log, frames, symbol, asOf);
  }

  /**
   * From any log, universe_as_of(T) after seeded registration equals universe_as_of(T) without the rows
   * unknown at T exactly when, for every symbol not active anyway, the rows known at T decide its seeding.
   */
  lemma SeedingNoLookaheadIff(log: seq<Event>, frames: seq<seq<Row>>, asOf: int)
    requires forall i :: 0 <= i < |frames| ==> Named(frames[i])
    ensures (forall s :: SeedingAgrees(log, frames, s, asOf)) <==> (forall s :: KnownRowsDecide(log, frames, s, asOf))
  {
    hide SeedingAgrees, Named, KnownRowsDecide;
    forall s ensures SeedingAgrees(log, frames, s, asOf) <==> KnownRowsDecide(log, frames, s, asOf) {
      SeedingAgreesIff(log, frames, s, asOf);
    }
  }

  /** Without delistings of the symbol, rows seed it exactly when one considered is valid by T. */
  lemma SeedsWithoutDelists(log: seq<Event>, rows: seq<Row>, considered: Row -> bool, symbol: string, asOf: int)
    requires forall e :: e in log && e.symbol == symbol ==> e.kind == Listed
    ensures Seeds(log, rows, considered, symbol, asOf)
      <==> exists r :: r in rows && considered(r) && Strip(r.symbol) == symbol && r.valid <= asOf
  {
    hide Strip;
    if r :| r in rows && considered(r) && Strip(r.symbol) == symbol && r.valid <= asOf {
      var first := EarliestOf(rows, considered, r);
      assert SeedingRow(log, rows, considered, symbol, asOf, first);
    }
  }

  lemma {:induction false} EarliestOf(rows: seq<Row>, considered: Row -> bool, r: Row) returns (first: Row)
    requires r in rows && considered(r)
    ensures first in rows && considered(first) && first.symbol == r.symbol
    ensures forall q :: q in rows && considered(q) && q.symbol == r.symbol ==> first.valid <= q.valid
    decreases |rows|
  {
    var init, last := rows[..|rows| - 1], rows[|rows| - 1];
    assert rows == init + [last];
    if q :| q in init && considered(q) && q.symbol == r.symbol {
      first := EarliestOf(init, considered, q);
      if considered(last) && last.symbol == r.symbol && last.valid < first.valid { first := last; }
    } else {
      first := last;
    }
  }

  lemma OneFrame(log: seq<Event>, rows: seq<Row>, symbol: string, asOf: int)
    requires Named(rows)
    ensures Active(SeedAll(log, [rows]), symbol, asOf)
      <==> Active(log, symbol, asOf) || Seeds(log, rows, AnyRow(), symbol, asOf)
    ensures Active(SeedAll(log, KnownFrames([rows], asOf)), symbol, asOf)
      <==> Active(log, symbol, asOf) || Seeds(log, rows, KnownAt(asOf), symbol, asOf)
  {
    hide Active, SeedAll, Seeds, Named;
    SeededMembership(log, [rows], symbol, asOf);
    KnownFramesNamed([rows], asOf);
    SeededMembership(log, KnownFrames([rows], asOf), symbol, asOf);
    SeedsInKnownFrames(log, [rows], symbol, asOf);
    assert [rows][0] == rows;
  }

  /** A row valid on day 1 but known only on day 5 already makes its symbol a member on day 2. */
  lemma SeedingLooksAhead()
    ensures var frames := [[Row("A", 1, 5, map[])]];
      && Active(SeedAll([], frames), "A", 2)
      && !Active(SeedAll([], KnownFrames(frames, 2)), "A", 2)
  {
    hide SeedAll, Active;
    var row := Row("A", 1, 5, map[]);
    assert Strip("A") == "A";
    OneFrame([], [row], "A", 2);
    assert row in [row];
    assert SeedingRow([], [row], AnyRow(), "A", 2, row);
    NothingActive("A", 2);
  }

  lemma NothingActive(symbol: string, asOf: int)
    ensures !Active([], symbol, asOf)
  {
  }

  /** It can also hide a relisting: an unknown early row moves the seed date before a delisting. */
  lemma SeedingHidesRelisting()
    ensures var log := [Event("A", 3, Delisted, "delist")];
      var frames := [[Row("A", 1, 9, map[]), Row("A", 5, 5, map[])]];
      && !Active(SeedAll(log, frames), "A", 6)
      && Active(SeedAll(log, KnownFrames(frames, 6)), "A", 6)
  {
    hide SeedAll, Active;
    var delist := Event("A", 3, Delisted, "delist");
    var early, late := Row("A", 1, 9, map[]), Row("A", 5, 5, map[]);
    assert Strip("A") == "A";
    OneFrame([delist], [early, late], "A", 6);
    assert early in [early, late] && late in [early, late] && delist in [delist];
    assert SeedingRow([delist], [early, late], KnownAt(6), "A", 6, late);
    ActiveIff([delist], "A", 6);
  }

  // ---------------------------------------------------------------------------
  // The view
  // ---------------------------------------------------------------------------

  class DataView {
    const universe: Universe
    const config: PitConfig
    var chunks: seq<seq<Row>>

    constructor (universe: Universe, config: PitConfig)
      ensures this.universe == universe && this.config == config && chunks == []
    {
      this.universe, this.config, chunks := universe, config, [];
    }

    /** Validate, sort, append; optionally seed the universe from the frame. */
    method RegisterSource(frame: Frame, seed: bool) returns (r: Result<(), PitError>)
      modifies this, universe
      ensures match FrameError(frame)
        case Some(e) => r == Err(e) && unchanged(this, universe)
        case None =>
          && r == Ok(())
          && chunks == old(chunks) + [Chunk(RowsOf(frame.rows))]
          && universe.events
               == if seed then SeedFrame(old(universe.events), Chunk(RowsOf(frame.rows))) else old(universe.events)
    {
      if frame.rows == [] {
        return Err(EmptyFrame);
      }
      if !frame.hasSymbol {
        return Err(NoSymbolColumn);
      }
      var bad := CheckSymbols(frame.rows);
      if bad.Some? {
        return Err(bad.value);
      }
      if !frame.hasValid {
        return Err(NoValidColumn);
      }
      if !frame.hasKnow {
        return Err(NoKnowColumn);
      }
      var chunk := Chunk(RowsOf(frame.rows));
      chunks := chunks + [chunk];
      if seed {
        var symbols := UniqueSymbols(chunk);
        assert symbols[..0] == [];
        for i := 0 to |symbols|
          invariant chunks == old(chunks) + [chunk]
          invariant universe.events == SeedSymbols(old(universe.events), chunk, symbols[..i])
        {
          var name := Strip(symbols[i]);
          assert symbols[..i + 1][..i] == symbols[..i];
          assert symbols[i] in UniqueSymbols(chunk);
          if name != "" {
            var date := FirstDate(chunk, symbols[i]);
            var active, _ := universe.EffectiveStateAt(name, date);
            if !active {
              universe.Register(name, date, "fixture_seed");
            }
          }
        }
        assert symbols[..|symbols|] == symbols;
      }
      r := Ok(());
    }

    /** One snapshot row per symbol as known at the date. */
    method SnapshotAsOf(symbols: seq<string>, fields: seq<string>, asOf: int)
      returns (r: Result<seq<Snapshot>, Staleness>)
      ensures r == AsOf(Concat(chunks), symbols, fields, config, asOf)
    {
      var store := Concat(chunks);
      var snaps: seq<Snapshot> := [];
      assert symbols[..0] == [];
      for i := 0 to |symbols|
        invariant AsOf(store, symbols[..i], fields, config, asOf) == Ok(snaps)
      {
        assert symbols[..i + 1][..i] == symbols[..i];
        var rows := Ordered(store, symbols[i], asOf);
        if rows != [] {
          var snap := ResolveSnapshot(rows, symbols[i], fields, asOf);
          if snap.Err? {
            AsOfError(store, symbols, fields, config, asOf, i + 1);
            return Err(snap.error);
          }
          snaps := snaps + [snap.value];
        }
      }
      assert symbols[..|symbols|] == symbols;
      r := Ok(snaps);
    }

    method ResolveSnapshot(rows: seq<Row>, symbol: string, fields: seq<string>, asOf: int)
      returns (r: Result<Snapshot, Staleness>)
      requires rows != []
      ensures r == SnapshotOf(rows, symbol, fields, config, asOf)
    {
      var values: map<string, Option<real>> := map[];
      assert fields[..0] == [];
      for i := 0 to |fields|
        invariant FieldValues(rows, symbol, fields[..i], config, asOf) == Ok(values)
      {
        assert fields[..i + 1][..i] == fields[..i];
        if fields[i] !in RESERVED {
          var cell := FieldOutcome(rows, symbol, fields[i], config(fields[i]), asOf);
          if cell.Err? {
            FieldsError(rows, symbol, fields, config, asOf, i + 1);
            return Err(cell.error);
          }
          values := values[fields[i] := cell.value];
        }
      }
      assert fields[..|fields|] == fields;
      r := Ok(Snapshot(symbol, rows[0].valid, asOf, values));
    }
  }

  method CheckSymbols(rows: seq<RawRow>) returns (bad: Option<PitError>)
    ensures bad == SymbolError(rows)
  {
    for i := 0 to |rows|
      invariant SymbolError(rows) == SymbolError(rows[i..])
    {
      bad := RowError(rows[i]);
      if bad.Some? {
        return;
      }
    }
    bad := None;
  }

  /** The first error of a prefix is the error of the whole. */
  lemma {:induction false} AsOfError(store: seq<Row>, symbols: seq<string>, fields: seq<string>, cfg: PitConfig,
                                     asOf: int, n: nat)
    requires n <= |symbols| && AsOf(store, symbols[..n], fields, cfg, asOf).Err?
    ensures AsOf(store, symbols, fields, cfg, asOf) == AsOf(store, symbols[..n], fields, cfg, asOf)
    decreases |symbols|
  {
    hide Ordered, SnapshotOf;
    if n == |symbols| {
      assert symbols[..n] == symbols;
    } else {
      var init := symbols[..|symbols| - 1];
      assert init[..n] == symbols[..n];
      AsOfError(store, init, fields, cfg, asOf, n);
    }
  }

  lemma {:induction false} FieldsError(rows: seq<Row>, symbol: string, fields: seq<string>, cfg: PitConfig,
                                       asOf: int, n: nat)
    requires rows != [] && n <= |fields| && FieldValues(rows, symbol, fields[..n], cfg, asOf).Err?
    ensures FieldValues(rows, symbol, fields, cfg, asOf) == FieldValues(rows, symbol, fields[..n], cfg, asOf)
    decreases |fields|
  {
    hide FieldOutcome;
    if n == |fields| {
      assert fields[..n] == fields;
    } else {
      var init := fields[..|fields| - 1];
      assert init[..n] == fields[..n];
      FieldsError(rows, symbol, init, cfg, asOf, n);
    }
  }
}
