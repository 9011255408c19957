/** A/B testing (`ABTesting`): the variant a visitor is given, the event log that
    `trackEvent` appends to, the session id, and the per-variant statistics that
    `ABTestStats` reduces the log to. */
module ABTesting {
  import opened Wrappers
  import opened Seqs

  datatype Variant = Control | VariantA | VariantB

  /** The stored spelling of each variant. */
  function VariantName(v: Variant): (s: string)
    ensures s != ""
  {
    match v
    case Control => "control"
    case VariantA => "variant_a"
    case VariantB => "variant_b"
  }

  /** `Object.values(ABTestVariants).includes(stored)`: only the three spellings name a
      variant. */
  function ParseVariant(s: string): (r: Option<Variant>)
    ensures r.Some? <==> s == "control" || s == "variant_a" || s == "variant_b"
  {
    if s == "control" then Some(Control)
    else if s == "variant_a" then Some(VariantA)
    else if s == "variant_b" then Some(VariantB)
    else None
  }

  lemma ParseVariantName(v: Variant)
    ensures ParseVariant(VariantName(v)) == Some(v)
  {
  }

  /** `variants[Math.floor(Math.random() * variants.length)]`, the random draw being the
      index `pick`. */
  function Drawn(pick: nat): (v: Variant)
    requires pick < 3
    ensures VariantName(v) == ["control", "variant_a", "variant_b"][pick]
  {
    [Control, VariantA, VariantB][pick]
  }

  /** What the effect of `useABTest` settles on: the variant, and what it writes back to
      `ab_test_<testId>` (`None`: nothing). */
  datatype Assignment = Assignment(variant: Variant, written: Option<string>)

  function Assign(stored: Option<string>, pick: nat): (a: Assignment)
    requires pick < 3
    ensures stored.Some? && ParseVariant(stored.value).Some? ==>
      a == Assignment(ParseVariant(stored.value).value, None)
    ensures !(stored.Some? && ParseVariant(stored.value).Some?) ==>
      a.variant == Drawn(pick) && a.written == Some(VariantName(a.variant))
  {
    if stored.Some? && stored.value != "" && ParseVariant(stored.value).Some? then
      Assignment(ParseVariant(stored.value).value, None)
    else
      var v := Drawn(pick);
      Assignment(v, Some(VariantName(v)))
  }

  /** Once a variant is stored, every later visit keeps it and writes nothing. */
  lemma AssignSticky(stored: Option<string>, pick: nat, pick2: nat)
    requires pick < 3 && pick2 < 3
    ensures var a := Assign(stored, pick);
      var stored2 := if a.written.Some? then a.written else stored;
      Assign(stored2, pick2) == Assignment(a.variant, None)
  {
    var a := Assign(stored, pick);
    if a.written.Some? {
      ParseVariantName(a.variant);
    }
  }

  /** The three flags `useABTest` returns. */
  datatype Flags = Flags(isControl: bool, isVariantA: bool, isVariantB: bool)

  function FlagsOf(v: Variant): (f: Flags)
    ensures f.isControl <==> v == Control
    ensures f.isVariantA <==> v == VariantA
    ensures f.isVariantB <==> v == VariantB
  {
    Flags(v == Control, v == VariantA, v == VariantB)
  }

  /** Exactly one of the flags holds. */
  lemma ExactlyOneFlag(v: Variant)
    ensures var f := FlagsOf(v);
      (if f.isControl then 1 else 0) + (if f.isVariantA then 1 else 0) + (if f.isVariantB then 1 else 0) == 1
  {
  }

  /** A logged event; the free-form `properties` are not modelled. */
  datatype Event = Event(testId: string, variant: Variant, eventName: string, timestamp: string, sessionId: string)

  /** `getSessionId`: the stored id when there is a non-empty one, else `newId`. */
  function SessionIdFor(stored: Option<string>, newId: string): (id: string)
    ensures stored.Some? && stored.value != "" ==> id == stored.value
    ensures !(stored.Some? && stored.value != "") ==> id == newId
  {
    if stored.Some? && stored.value != "" then stored.value else newId
  }

  /** The browser storage the hook works against: the event log and the session id. */
  class Storage {
    var events: seq<Event>
    var sessionId: Option<string>

    constructor ()
      ensures events == [] && sessionId == None
    {
      events, sessionId := [], None;
    }

    /** `getSessionId`; `newId` is the `session_<time>_<random>` id it would make. */
    method GetSessionId(newId: string) returns (id: string)
      modifies this`sessionId
      ensures id == SessionIdFor(old(sessionId), newId)
      ensures sessionId == if old(sessionId).Some? && old(sessionId).value != "" then old(sessionId) else Some(newId)
    {
      if sessionId.Some? && sessionId.value != "" {
        id := sessionId.value;
      } else {
        id := newId;
        sessionId := Some(newId);
      }
    }

    /** `trackEvent`: appends exactly one event to the log, with the session id, which stays
        stored for the next event. */
    method TrackEvent(testId: string, variant: Variant, eventName: string, now: string, newId: string)
      modifies this
      ensures events == old(events) + [Event(testId, variant, eventName, now, SessionIdFor(old(sessionId), newId))]
      ensures sessionId == if old(sessionId).Some? && old(sessionId).value != "" then old(sessionId) else Some(newId)
    {
      var session := GetSessionId(newId);
      events := events + [Event(testId, variant, eventName, now, session)];
    }
  }

  /** Two events tracked one after the other carry the same session id, whatever id the
      second call would have made, as long as the first id handed out is not empty. */
  method TrackTwice(storage: Storage, testId: string, variant: Variant, first: string, second: string,
                    now: string, newId: string, newId2: string)
    requires newId != ""
    modifies storage
    ensures |storage.events| == |old(storage.events)| + 2
    ensures storage.events[|storage.events| - 1].sessionId == storage.events[|storage.events| - 2].sessionId
  {
    storage.TrackEvent(testId, variant, first, now, newId);
    storage.TrackEvent(testId, variant, second, now, newId2);
  }

  /** Once a non-empty session id has been handed out, later calls hand out the same one. */
  lemma SessionStable(stored: Option<string>, newId: string, newId2: string)
    requires newId != ""
    ensures var id := SessionIdFor(stored, newId);
      var stored2 := if stored.Some? && stored.value != "" then stored else Some(newId);
      SessionIdFor(stored2, newId2) == id
  {
  }

  // ---------------------------------------------------------------------------------------
  // ABTestStats

  /** The accumulator of one variant in the `reduce`. */
  datatype Tallies = Tallies(totalEvents: nat, uniqueSessions: set<string>, eventTypes: map<string, nat>)

  /** One variant's row once the sessions set is replaced by its size. */
  datatype VariantStats = VariantStats(totalEvents: nat, uniqueSessionsCount: nat, eventTypes: map<string, nat>)

  const Empty := Tallies(0, {}, map[])

  function CountOf(m: map<string, nat>, name: string): nat {
    if name in m then m[name] else 0
  }

  /** The accumulator of `v` in `acc`, empty when there is none yet. */
  function RowIn(acc: map<Variant, Tallies>, v: Variant): Tallies {
    if v in acc then acc[v] else Empty
  }

  /** What one event of its variant does to that variant's accumulator. */
  function Bump(t: Tallies, e: Event): Tallies {
    Tallies(t.totalEvents + 1, t.uniqueSessions + {e.sessionId}, t.eventTypes[e.eventName := CountOf(t.eventTypes, e.eventName) + 1])
  }

  /** The accumulator of variant `v` after the events `evs`. */
  function Row(evs: seq<Event>, v: Variant): Tallies
    decreases |evs|
  {
    if evs == [] then Empty
    else
      var r := Row(evs[..|evs| - 1], v);
      if evs[|evs| - 1].variant == v then Bump(r, evs[|evs| - 1]) else r
  }

  function Finish(t: Tallies): VariantStats {
    VariantStats(t.totalEvents, |t.uniqueSessions|, t.eventTypes)
  }

  /** The events of test `testId`. */
  function TestEvents(events: seq<Event>, testId: string): seq<Event> {
    Filter(events, (e: Event) => e.testId == testId)
  }

  /** The events of variant `v`. */
  function OfVariant(evs: seq<Event>, v: Variant): seq<Event> {
    Filter(evs, (e: Event) => e.variant == v)
  }

  /** The body of the `reduce` callback: creates the variant's accumulator when missing,
      then bumps its counters in place. */
  method RecordEvent(acc: map<Variant, Tallies>, event: Event) returns (acc': map<Variant, Tallies>)
    ensures acc' == acc[event.variant := Bump(RowIn(acc, event.variant), event)]
  {
    acc' := acc;
    if event.variant !in acc' {
      acc' := acc'[event.variant := Tallies(0, {}, map[])];
    }
    var t := acc'[event.variant];
    ghost var bumped := Bump(t, event);
    t := t.(totalEvents := t.totalEvents + 1);
    t := t.(uniqueSessions := t.uniqueSessions + {event.sessionId});
    if event.eventName !in t.eventTypes {
      t := t.(eventTypes := t.eventTypes[event.eventName := 0]);
    }
    t := t.(eventTypes := t.eventTypes[event.eventName := t.eventTypes[event.eventName] + 1]);
    assert t.eventTypes == bumped.eventTypes;
    acc' := acc'[event.variant := t];
  }

  /** Adding an event to the list moves only its own variant's row, by one bump. */
  lemma {:induction false} RowSnoc(evs: seq<Event>, e: Event, v: Variant)
    ensures Row(evs + [e], v) == if e.variant == v then Bump(Row(evs, v), e) else Row(evs, v)
  {
    assert (evs + [e])[..|evs|] == evs;
  }

  /** The effect of `ABTestStats`: the events of the test, reduced with per-variant
      counters updated in place, then each sessions set turned into its size. A variant has
      a row exactly when it has events. */
  method ComputeStats(events: seq<Event>, testId: string) returns (stats: map<Variant, VariantStats>)
    ensures forall v :: v in stats <==> Row(TestEvents(events, testId), v).totalEvents > 0
    ensures forall v :: v in stats ==> stats[v] == Finish(Row(TestEvents(events, testId), v))
  {
    var testEvents := TestEvents(events, testId);
    var acc: map<Variant, Tallies> := map[];
    for i := 0 to |testEvents|
      invariant forall v :: RowIn(acc, v) == Row(testEvents[..i], v)
      invariant forall v :: v in acc ==> acc[v].totalEvents > 0
    {
      ghost var before := acc;
      acc := RecordEvent(acc, testEvents[i]);
      assert testEvents[..i + 1] == testEvents[..i] + [testEvents[i]];
      forall v
        ensures RowIn(acc, v) == Row(testEvents[..i + 1], v)
      {
        RowSnoc(testEvents[..i], testEvents[i], v);
        if v != testEvents[i].variant {
          assert RowIn(acc, v) == RowIn(before, v);
        }
      }
    }
    assert testEvents[..|testEvents|] == testEvents;
    stats := map v | v in acc :: Finish(acc[v]);
  }

  /** Events of other tests never reach the statistics. */
  lemma OtherTestsIgnored(events: seq<Event>, e: Event, testId: string)
    requires e.testId != testId
    ensures TestEvents(events + [e], testId) == TestEvents(events, testId)
  {
    var keep := (x: Event) => x.testId == testId;
    FilterAppend(events, [e], keep);
    FilterNone([e], keep);
  }

  lemma FilterSnoc<T>(s: seq<T>, x: T, keep: T -> bool)
    ensures Filter(s + [x], keep) == Filter(s, keep) + (if keep(x) then [x] else [])
  {
    FilterAppend(s, [x], keep);
    assert [x][1..] == [];
  }

  /** A variant's total is the number of its events. */
  lemma {:induction false} RowTotal(evs: seq<Event>, v: Variant)
    ensures Row(evs, v).totalEvents == |OfVariant(evs, v)|
    decreases |evs|
  {
    if evs != [] {
      var init, last := evs[..|evs| - 1], evs[|evs| - 1];
      assert evs == init + [last];
      RowTotal(init, v);
      FilterSnoc(init, last, (e: Event) => e.variant == v);
    }
  }

  /** The sessions of a variant are the session ids of its events, so there are never more
      of them than events. */
  lemma {:induction false} RowSessions(evs: seq<Event>, v: Variant)
    ensures Row(evs, v).uniqueSessions == set e | e in OfVariant(evs, v) :: e.sessionId
    ensures |Row(evs, v).uniqueSessions| <= Row(evs, v).totalEvents
    decreases |evs|
  {
    if evs != [] {
      var init, last := evs[..|evs| - 1], evs[|evs| - 1];
      assert evs == init + [last];
      RowSessions(init, v);
      FilterSnoc(init, last, (e: Event) => e.variant == v);
      if last.variant == v {
        var before := OfVariant(init, v);
        assert forall e :: e in before + [last] <==> e in before || e == last;
        var sessions := Row(init, v).uniqueSessions;
        assert |sessions + {last.sessionId}| <= |sessions| + 1;
      }
    }
  }

  /** The sum of `m` over the keys `keys`. */
  function SumOver(m: map<string, nat>, keys: seq<string>): nat
    decreases |keys|
  {
    if keys == [] then 0 else SumOver(m, keys[..|keys| - 1]) + CountOf(m, keys[|keys| - 1])
  }

  lemma {:induction false} SumOverOutside(m: map<string, nat>, keys: seq<string>, k: string, x: nat)
    requires k !in keys
    ensures SumOver(m[k := x], keys) == SumOver(m, keys)
    decreases |keys|
  {
    if keys != [] {
      SumOverOutside(m, keys[..|keys| - 1], k, x);
    }
  }

  lemma {:induction false} SumOverIncrement(m: map<string, nat>, keys: seq<string>, k: string)
    requires Distinct(keys) && k in keys
    ensures SumOver(m[k := CountOf(m, k) + 1], keys) == SumOver(m, keys) + 1
    decreases |keys|
  {
    var init, last := keys[..|keys| - 1], keys[|keys| - 1];
    if last == k {
      forall j | 0 <= j < |init|
        ensures init[j] != k
      {
        assert init[j] == keys[j];
      }
      SumOverOutside(m, init, k, CountOf(m, k) + 1);
    } else {
      assert k in init by {
        var j :| 0 <= j < |keys| && keys[j] == k;
        assert j < |keys| - 1;
        assert init[j] == k;
      }
      SumOverIncrement(m, init, k);
    }
  }

  /** The event names of variant `v`, in order of first appearance. */
  function NamesOf(evs: seq<Event>, v: Variant): seq<string>
    decreases |evs|
  {
    if evs == [] then []
    else
      var names := NamesOf(evs[..|evs| - 1], v);
      var last := evs[|evs| - 1];
      if last.variant == v && last.eventName !in names then names + [last.eventName] else names
  }

  /** A name not yet listed, appended, keeps the list free of repeats. */
  lemma DistinctSnoc(names: seq<string>, name: string)
    requires Distinct(names) && name !in names
    ensures Distinct(names + [name])
  {
    var names' := names + [name];
    forall i, j | 0 <= i < j < |names'|
      ensures names'[i] != names'[j]
    {
      assert names'[i] == names[i];
    }
  }

  /** The counted event names of a variant are exactly the names of its events, listed
      once each. */
  lemma {:induction false} RowNames(evs: seq<Event>, v: Variant)
    ensures Distinct(NamesOf(evs, v))
    ensures forall n :: n in Row(evs, v).eventTypes <==> n in NamesOf(evs, v)
    decreases |evs|
  {
    if evs != [] {
      var init, last := evs[..|evs| - 1], evs[|evs| - 1];
      RowNames(init, v);
      if last.variant == v && last.eventName !in NamesOf(init, v) {
        DistinctSnoc(NamesOf(init, v), last.eventName);
      }
    }
  }

  /** The event-type counters of a variant add up to its total. */
  lemma {:induction false} RowTypesSum(evs: seq<Event>, v: Variant)
    ensures Row(evs, v).totalEvents == SumOver(Row(evs, v).eventTypes, NamesOf(evs, v))
    decreases |evs|
  {
    if evs != [] {
      var init, last := evs[..|evs| - 1], evs[|evs| - 1];
      RowTypesSum(init, v);
      if last.variant == v {
        RowNames(init, v);
        BumpTypesSum(Row(init, v), NamesOf(init, v), last);
      }
    }
  }

  /** One event keeps the counters adding up to the total, over the names listed so far
      with its own name appended when it is new. */
  lemma BumpTypesSum(t: Tallies, names: seq<string>, e: Event)
    requires Distinct(names) && forall n :: n in t.eventTypes <==> n in names
    requires t.totalEvents == SumOver(t.eventTypes, names)
    ensures Bump(t, e).totalEvents
         == SumOver(Bump(t, e).eventTypes, if e.eventName in names then names else names + [e.eventName])
  {
    if e.eventName in names {
      SumOverIncrement(t.eventTypes, names, e.eventName);
    } else {
      var names' := names + [e.eventName];
      assert names'[..|names'| - 1] == names;
      SumOverOutside(t.eventTypes, names, e.eventName, 1);
    }
  }


  /** Per variant of the test, the row shown: its number of events, its number of distinct
      sessions (never more than its events), and counters that add up to the total; there
      is a row exactly for the variants that have events. */
  lemma StatsRow(events: seq<Event>, testId: string, v: Variant)
    ensures var evs := TestEvents(events, testId);
      var row := Finish(Row(evs, v));
      (row.totalEvents > 0 <==> |OfVariant(evs, v)| > 0)
      && row.totalEvents == |OfVariant(evs, v)|
      && row.uniqueSessionsCount == |set e | e in OfVariant(evs, v) :: e.sessionId| <= row.totalEvents
      && row.totalEvents == SumOver(row.eventTypes, NamesOf(evs, v))
  {
    var evs := TestEvents(events, testId);
    RowTotal(evs, v);
    RowSessions(evs, v);
    RowTypesSum(evs, v);
    RowNames(evs, v);
  }
}
