/** Universe membership: an append-only log of list and delist events. */
module UniverseLog {
  import opened Common
  import opened Ordering

  datatype EventType = Listed | Delisted

  datatype Event = Event(symbol: string, date: int, kind: EventType, reason: string)

  /** On the same date a delist outranks a list. */
  predicate Outranks(a: Event, b: Event) {
    a.date > b.date || (a.date == b.date && a.kind == Delisted && b.kind == Listed)
  }

  function Concerns(symbol: string, asOf: int): Event -> bool {
    (e: Event) => e.symbol == symbol && e.date <= asOf
  }

  /** Python's max: the first event that no other outranks. */
  function MaxEvent(events: seq<Event>): (best: Event)
    requires events != []
    ensures best in events
    ensures forall e :: e in events ==> !Outranks(e, best)
    ensures exists k :: 0 <= k < |events| && events[k] == best && forall j :: 0 <= j < k ==> Outranks(best, events[j])
  {
    if |events| == 1 then events[0]
    else
      var init, last := events[..|events| - 1], events[|events| - 1];
      var best := MaxEvent(init);
      assert events == init + [last];
      assert forall j :: 0 <= j < |init| ==> init[j] == events[j] && init[j] in init;
      if Outranks(last, best) then last else best
  }

  function LatestEvent(events: seq<Event>, symbol: string, asOf: int): Option<Event> {
    var candidates := Filter(events, Concerns(symbol, asOf));
    if candidates == [] then None else Some(MaxEvent(candidates))
  }

  predicate Active(events: seq<Event>, symbol: string, asOf: int) {
    var latest := LatestEvent(events, symbol, asOf);
    latest.Some? && latest.value.kind == Listed
  }

  function Members(events: seq<Event>, asOf: int): set<string> {
    set e | e in events && Active(events, e.symbol, asOf) :: e.symbol
  }

  /** A list event in force: dated at or before asOf, with no delist from its date up to asOf. */
  ghost predicate InForce(events: seq<Event>, symbol: string, asOf: int, listed: Event) {
    && listed in events && listed.symbol == symbol && listed.kind == Listed && listed.date <= asOf
    && forall d :: d in events && d.symbol == symbol && d.kind == Delisted && d.date <= asOf ==> d.date < listed.date
  }

  /** Membership read off the log: some listing is in force. */
  lemma ActiveIff(events: seq<Event>, symbol: string, asOf: int)
    ensures Active(events, symbol, asOf) <==> exists e :: InForce(events, symbol, asOf, e)
  {
    var candidates := Filter(events, Concerns(symbol, asOf));
    if candidates != [] {
      var best := MaxEvent(candidates);
      assert best in candidates;
      if best.kind == Listed {
        assert forall d :: d in events && Concerns(symbol, asOf)(d) ==> d in candidates;
        assert InForce(events, symbol, asOf, best);
      } else {
        assert forall e :: InForce(events, symbol, asOf, e) ==> e in candidates && e.date > best.date;
      }
    }
  }

  /** members_as_of(T) is the set of symbols with a listing in force at T. */
  lemma MembersIff(events: seq<Event>, asOf: int, symbol: string)
    ensures symbol in Members(events, asOf) <==> exists e :: InForce(events, symbol, asOf, e)
  {
    ActiveIff(events, symbol, asOf);
    if e :| InForce(events, symbol, asOf, e) {
      assert e in events && Active(events, e.symbol, asOf);
    }
  }

  /** Logs with the same events up to T have the same members at T: order and later events are irrelevant. */
  lemma MembersNoLookahead(a: seq<Event>, b: seq<Event>, asOf: int)
    requires forall e: Event :: e.date <= asOf ==> (e in a <==> e in b)
    ensures Members(a, asOf) == Members(b, asOf)
  {
    forall symbol ensures symbol in Members(a, asOf) <==> symbol in Members(b, asOf) {
      MembersIff(a, asOf, symbol);
      MembersIff(b, asOf, symbol);
      assert forall e :: InForce(a, symbol, asOf, e) <==> InForce(b, symbol, asOf, e);
    }
  }

  /** The event deciding membership: the latest of the symbol by T, a delisting before a listing, then the oldest entry. */
  ghost predicate Decides(events: seq<Event>, symbol: string, asOf: int, e: Event, k: nat) {
    && k < |events| && events[k] == e && e.symbol == symbol && e.date <= asOf
    && (forall q :: q in events && q.symbol == symbol && q.date <= asOf ==>
          q.date < e.date || (q.date == e.date && (q.kind == e.kind || e.kind == Delisted)))
    && (forall j :: 0 <= j < k && events[j].symbol == symbol && events[j].date == e.date ==> events[j].kind != e.kind)
  }

  lemma {:induction false} FilterPosition(events: seq<Event>, keep: Event -> bool, n: nat) returns (k: nat)
    requires n < |Filter(events, keep)|
    ensures k < |events| && events[k] == Filter(events, keep)[n]
    ensures forall j :: 0 <= j < k && keep(events[j]) ==> events[j] in Filter(events, keep)[..n]
  {
    var kept := Filter(events, keep);
    if keep(events[0]) && n == 0 {
      k := 0;
    } else {
      var before := FilterPosition(events[1..], keep, if keep(events[0]) then n - 1 else n);
      k := before + 1;
      forall j | 0 <= j < k && keep(events[j]) ensures events[j] in kept[..n] {
        if j == 0 {
          assert kept[..n][0] == events[0];
        } else {
          assert events[j] == events[1..][j - 1];
          if keep(events[0]) { assert kept[1..][..n - 1] == kept[..n][1..]; }
        }
      }
    }
  }

  lemma LatestDecides(events: seq<Event>, symbol: string, asOf: int)
    ensures LatestEvent(events, symbol, asOf).None?
      <==> forall e :: e in events && e.symbol == symbol ==> e.date > asOf
    ensures LatestEvent(events, symbol, asOf).Some? ==>
      exists k: nat :: Decides(events, symbol, asOf, LatestEvent(events, symbol, asOf).value, k)
  {
    var keep := Concerns(symbol, asOf);
    var candidates := Filter(events, keep);
    assert forall e :: e in candidates <==> e in events && keep(e);
    if candidates == [] {
      assert forall e :: e in events ==> !keep(e);
    } else {
      assert candidates[0] in candidates;
      var best := MaxEvent(candidates);
      var n :| 0 <= n < |candidates| && candidates[n] == best && forall j :: 0 <= j < n ==> Outranks(best, candidates[j]);
      var k := FilterPosition(events, keep, n);
      forall j | 0 <= j < k && events[j].symbol == symbol && events[j].date == best.date
        ensures events[j].kind != best.kind
      {
        assert keep(events[j]);
        var i :| 0 <= i < n && candidates[..n][i] == events[j];
        assert Outranks(best, candidates[i]);
      }
      forall q | q in events && q.symbol == symbol && q.date <= asOf
        ensures q.date < best.date || (q.date == best.date && (q.kind == best.kind || best.kind == Delisted))
      {
        assert keep(q) && q in candidates;
      }
      assert Decides(events, symbol, asOf, best, k);
    }
  }

  class Universe {
    var events: seq<Event>

    constructor ()
      ensures events == []
    {
      events := [];
    }

    method Register(symbol: string, date: int, reason: string)
      modifies this
      ensures events == old(events) + [Event(symbol, date, Listed, reason)]
    {
      events := events + [Event(symbol, date, Listed, reason)];
    }

    method Delist(symbol: string, date: int, reason: string)
      modifies this
      ensures events == old(events) + [Event(symbol, date, Delisted, reason)]
    {
      events := events + [Event(symbol, date, Delisted, reason)];
    }

    method EffectiveStateAt(symbol: string, asOf: int) returns (active: bool, latest: Option<Event>)
      ensures active == Active(events, symbol, asOf)
      ensures active <==> exists e :: InForce(events, symbol, asOf, e)
      ensures latest.None? <==> forall e :: e in events && e.symbol == symbol ==> e.date > asOf
      ensures latest.Some? ==> exists k: nat :: Decides(events, symbol, asOf, latest.value, k)
    {
      latest := LatestEvent(events, symbol, asOf);
      active := latest.Some? && latest.value.kind == Listed;
      ActiveIff(events, symbol, asOf);
      LatestDecides(events, symbol, asOf);
    }

    method MembersAsOf(asOf: int) returns (members: set<string>)
      ensures members == Members(events, asOf)
      ensures forall s :: s in members <==> exists e :: InForce(events, s, asOf, e)
    {
      members := {};
      var seen := set e | e in events :: e.symbol;
      var rest := seen;
      while rest != {}
        invariant rest <= seen
        invariant forall s :: s in members <==> s in seen - rest && Active(events, s, asOf)
        decreases |rest|
      {
        var s :| s in rest;
        var active, _ := EffectiveStateAt(s, asOf);
        if active {
          members := members + {s};
        }
        rest := rest - {s};
      }
      assert members == Members(events, asOf);
      forall s ensures s in members <==> exists e :: InForce(events, s, asOf, e) {
        MembersIff(events, asOf, s);
      }
    }
  }
}
