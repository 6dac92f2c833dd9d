/** The aggregation loop of handle_response: events are grouped by (heading
    date, repository), eight counters per group are incremented in place, and
    the last reference of each create/delete type is kept per group. */
module Aggregation {
  import opened Outcomes
  import opened Dates
  import opened Events
  import opened Messages

  /** A group: the heading date and the repository name. */
  datatype GroupKey = GroupKey(date: string, repo: string)

  /** A group's counters, one per event tag. */
  type Counters = map<EventType, int>

  /** The aggregation state: groups in the order they were first seen (the
      insertion order of the group dictionary), their counters, and their
      references. */
  datatype Groups = Groups(order: seq<GroupKey>, counts: map<GroupKey, Counters>, refs: map<GroupKey, RefTable>)

  /** The exceptions the loop can raise: ValueError from strptime on a bad
      timestamp, KeyError on a type that names no counter. */
  datatype AggError = BadTimestamp(stamp: string) | UnknownEventType(tag: Option<string>)

  /** A record is kept when its repository name and timestamp are both present
      and non-empty; every other record is skipped. */
  predicate Kept(e: RawEvent)
  {
    e.repoName.Some? && e.repoName.value != "" && e.createdAt.Some? && e.createdAt.value != ""
  }

  /** What one event adds to its counter: 1 when the payload has no size or
      belongs to a pull request, the payload size otherwise. */
  function Increment(e: RawEvent): int
  {
    if e.payloadSize.None? || e.pullRequestId.Some? then 1 else e.payloadSize.value
  }

  /** The group a kept event with a readable timestamp falls into. */
  function KeyOf(e: RawEvent): Option<GroupKey>
  {
    if Kept(e) && FormatDate(e.createdAt.value).Some?
    then Some(GroupKey(FormatDate(e.createdAt.value).value, e.repoName.value))
    else None
  }

  /** A kept event that raises: its timestamp does not parse, or its type names
      no counter (the timestamp is read first). */
  predicate Fails(e: RawEvent)
  {
    Kept(e) && (FormatDate(e.createdAt.value).None? || ParseTag(e.eventType).None?)
  }

  function ErrorOf(e: RawEvent): AggError
    requires Fails(e)
  {
    if FormatDate(e.createdAt.value).None? then BadTimestamp(e.createdAt.value)
    else UnknownEventType(e.eventType)
  }

  /** Event e adds to counter t of group k. */
  predicate Hits(e: RawEvent, k: GroupKey, t: EventType)
  {
    KeyOf(e) == Some(k) && ParseTag(e.eventType) == Some(t)
  }

  /** The reference an event carries. */
  function EntryOf(e: RawEvent): RefEntry
  {
    RefEntry(e.payloadRef, e.payloadRefType)
  }

  /** A new group's counters: all eight tags at zero. */
  function ZeroCounters(): (c: Counters)
    ensures forall t :: t in c && c[t] == 0
  {
    CounterOrderCoversAll();
    map t | t in CounterOrder :: 0
  }

  predicate Distinct<T(==)>(s: seq<T>)
  {
    forall i, j :: 0 <= i < j < |s| ==> s[i] != s[j]
  }

  /** The shape every reachable state has: the order lists each group once,
      every group has all eight counters, and only groups have references. */
  ghost predicate Wf(g: Groups)
  {
    Distinct(g.order) &&
    (forall k :: k in g.counts <==> k in g.order) &&
    AllCounters(g) &&
    (forall k :: k in g.refs ==> k in g.counts)
  }

  /** Every group has all eight counters. */
  ghost predicate AllCounters(g: Groups)
  {
    forall k, t :: k in g.counts ==> t in g.counts[k]
  }

  /** Counter t of group k, or 0 for a group that does not exist. */
  function CountOf(g: Groups, k: GroupKey, t: EventType): int
  {
    if k in g.counts && t in g.counts[k] then g.counts[k][t] else 0
  }

  function RefsAt(refs: map<GroupKey, RefTable>, k: GroupKey): RefTable
  {
    if k in refs then refs[k] else map[]
  }

  const Empty: Groups := Groups([], map[], map[])

  /** One iteration of the loop on event e. */
  function Step(g: Groups, e: RawEvent): (r: Result<Groups, AggError>)
    requires AllCounters(g)
    ensures r.Ok? ==> AllCounters(r.value)
  {
    if !Kept(e) then Ok(g)
    else match FormatDate(e.createdAt.value)
      case None => Err(BadTimestamp(e.createdAt.value))
      case Some(date) =>
        var key := GroupKey(date, e.repoName.value);
        match ParseTag(e.eventType)
        case None => Err(UnknownEventType(e.eventType))
        case Some(t) =>
          Ok(Bump(g, key, t, Increment(e), EntryOf(e)))
  }

  /** Adds inc to counter t of group key (creating the group with all counters
      at zero when it is new) and, for a create or delete tag, overwrites the
      group's reference of that tag with entry. */
  function Bump(g: Groups, key: GroupKey, t: EventType, inc: int, entry: RefEntry): Groups
    requires key in g.counts ==> t in g.counts[key]
  {
    var c := if key in g.counts then g.counts[key] else ZeroCounters();
    var order := if key in g.counts then g.order else g.order + [key];
    var refs :=
      if t == CreateEvent || t == DeleteEvent
      then g.refs[key := RefsAt(g.refs, key)[t := entry]]
      else g.refs;
    Groups(order, g.counts[key := c[t := c[t] + inc]], refs)
  }

  /** The loop run over a whole sequence of events, one Step at a time; the
      first exception ends it. */
  function Tally(es: seq<RawEvent>): (r: Result<Groups, AggError>)
    ensures r.Ok? ==> AllCounters(r.value)
  {
    if es == [] then Ok(Empty)
    else match Tally(es[..|es| - 1])
      case Err(x) => Err(x)
      case Ok(g) => Step(g, es[|es| - 1])
  }

  /** The loop of handle_response over the fetched events, updating the group
      dictionaries in place; it ends with the first exception. */
  method Aggregate(events: seq<RawEvent>) returns (r: Result<Groups, AggError>)
    ensures r == Tally(events)
  {
    var order: seq<GroupKey> := [];
    var counts: map<GroupKey, Counters> := map[];
    var refs: map<GroupKey, RefTable> := map[];
    var i := 0;
    while i < |events|
      invariant 0 <= i <= |events|
      invariant Tally(events[..i]) == Ok(Groups(order, counts, refs))
    {
      var e := events[i];
      ghost var g0 := Groups(order, counts, refs);
      TallyNext(events, i, g0);
      if !Kept(e) {
        i := i + 1;
        continue;
      }
      var date := FormatDate(e.createdAt.value);
      if date.None? {
        TallyKeepsError(events, i + 1);
        return Err(BadTimestamp(e.createdAt.value));
      }
      var size := Increment(e);
      var key := GroupKey(date.value, e.repoName.value);
      if key !in counts {
        order := order + [key];
        counts := counts[key := ZeroCounters()];
      }
      var tag := ParseTag(e.eventType);
      if tag.None? {
        TallyKeepsError(events, i + 1);
        return Err(UnknownEventType(e.eventType));
      }
      var t := tag.value;
      ghost var counts1 := counts;
      ghost var refs1 := refs;
      counts := counts[key := counts[key][t := counts[key][t] + size]];
      if t == CreateEvent || t == DeleteEvent {
        if key !in refs {
          refs := refs[key := map[]];
        }
        refs := refs[key := refs[key][t := EntryOf(e)]];
      }
      BumpInPlace(g0, key, t, size, EntryOf(e), counts1, counts, refs);
      i := i + 1;
    }
    assert events[..|events|] == events;
    r := Ok(Groups(order, counts, refs));
  }

  lemma BumpKeepsShape(g: Groups, key: GroupKey, t: EventType, inc: int, entry: RefEntry)
    requires Wf(g)
    ensures Wf(Bump(g, key, t, inc, entry))
  {
    var b := Bump(g, key, t, inc, entry);
    if key !in g.counts {
      assert key !in g.order;
      forall i, j | 0 <= i < j < |b.order| ensures b.order[i] != b.order[j] {
        if j == |g.order| {
          assert b.order[i] == g.order[i];
        }
      }
    }
  }

  /** Every state the loop reaches has the shape Wf describes. */
  lemma {:induction false} TallyShape(es: seq<RawEvent>, g: Groups)
    requires Tally(es) == Ok(g)
    ensures Wf(g)
  {
    if es != [] {
      var p, e := es[..|es| - 1], es[|es| - 1];
      TallyLast(es);
      var g0 := Tally(p).value;
      TallyShape(p, g0);
      StepCases(g0, e);
      if KeyOf(e).Some? && !Fails(e) {
        BumpKeepsShape(g0, KeyOf(e).value, ParseTag(e.eventType).value, Increment(e), EntryOf(e));
      }
    }
  }

  /** The in-place updates of the loop body compute Bump. */
  lemma BumpInPlace(g: Groups, key: GroupKey, t: EventType, inc: int, entry: RefEntry,
                    counts1: map<GroupKey, Counters>,
                    counts2: map<GroupKey, Counters>, refs2: map<GroupKey, RefTable>)
    requires key in g.counts ==> t in g.counts[key]
    requires counts1 == if key in g.counts then g.counts else g.counts[key := ZeroCounters()]
    requires counts2 == counts1[key := counts1[key][t := counts1[key][t] + inc]]
    requires refs2 == if t == CreateEvent || t == DeleteEvent
                      then (if key in g.refs then g.refs else g.refs[key := map[]])[key := RefsAt(g.refs, key)[t := entry]]
                      else g.refs
    ensures Bump(g, key, t, inc, entry) == Groups(if key in g.counts then g.order else g.order + [key], counts2, refs2)
  {
    CountsInPlace(g.counts, key, t, inc, counts1, counts2);
    RefsInPlace(g.refs, key, t, entry, refs2);
  }

  lemma CountsInPlace(counts: map<GroupKey, Counters>, key: GroupKey, t: EventType, inc: int,
                      counts1: map<GroupKey, Counters>, counts2: map<GroupKey, Counters>)
    requires key in counts ==> t in counts[key]
    requires counts1 == if key in counts then counts else counts[key := ZeroCounters()]
    requires counts2 == counts1[key := counts1[key][t := counts1[key][t] + inc]]
    ensures var c := if key in counts then counts[key] else ZeroCounters();
      counts2 == counts[key := c[t := c[t] + inc]]
  {
  }

  lemma RefsInPlace(refs: map<GroupKey, RefTable>, key: GroupKey, t: EventType, entry: RefEntry,
                    refs2: map<GroupKey, RefTable>)
    requires refs2 == if t == CreateEvent || t == DeleteEvent
                      then (if key in refs then refs else refs[key := map[]])[key := RefsAt(refs, key)[t := entry]]
                      else refs
    ensures refs2 == if t == CreateEvent || t == DeleteEvent
                     then refs[key := RefsAt(refs, key)[t := entry]]
                     else refs
  {
  }

  /** One more event is one more Step. */
  lemma TallyNext(es: seq<RawEvent>, i: nat, g: Groups)
    requires i < |es| && Tally(es[..i]) == Ok(g)
    ensures Tally(es[..i + 1]) == Step(g, es[i])
  {
    assert es[..i + 1][..i] == es[..i];
  }

  /** Once the loop has raised, later events do not matter. */
  lemma {:induction false} TallyKeepsError(es: seq<RawEvent>, i: nat)
    requires i <= |es| && Tally(es[..i]).Err?
    ensures Tally(es) == Tally(es[..i])
    decreases |es| - i
  {
    if i < |es| {
      assert es[..i + 1][..i] == es[..i];
      TallyKeepsError(es, i + 1);
    } else {
      assert es[..i] == es;
    }
  }

  // ---------------------------------------------------------------------------
  // What the loop computes, stated per group and per counter.

  /** Some event of es falls into group k. */
  ghost predicate Occurs(es: seq<RawEvent>, k: GroupKey)
  {
    exists i :: 0 <= i < |es| && KeyOf(es[i]) == Some(k)
  }

  /** The sum of the increments of the events of es that hit counter t of group k. */
  function Total(es: seq<RawEvent>, k: GroupKey, t: EventType): int
  {
    if es == [] then 0
    else Total(es[..|es| - 1], k, t) + (if Hits(es[|es| - 1], k, t) then Increment(es[|es| - 1]) else 0)
  }

  /** The reference of the latest event of es that hits counter t of group k. */
  function LastEntry(es: seq<RawEvent>, k: GroupKey, t: EventType): Option<RefEntry>
  {
    if es == [] then None
    else if Hits(es[|es| - 1], k, t) then Some(EntryOf(es[|es| - 1]))
    else LastEntry(es[..|es| - 1], k, t)
  }

  /** The reference a state holds for tag t of group k, if any. */
  function RefOf(g: Groups, k: GroupKey, t: EventType): Option<RefEntry>
  {
    if k in g.refs && t in g.refs[k] then Some(g.refs[k][t]) else None
  }

  /** One event touches one counter: Bump adds inc to counter t of group key,
      a new group starts with every counter at zero, no other counter and no
      other group changes, only the (key, t) reference is overwritten and only
      for create/delete, and a new group goes to the end of the order. */
  lemma BumpChangesOneCounter(g: Groups, key: GroupKey, t: EventType, inc: int, entry: RefEntry)
    requires AllCounters(g)
    ensures var b := Bump(g, key, t, inc, entry);
      b.counts.Keys == g.counts.Keys + {key} &&
      b.order == (if key in g.counts then g.order else g.order + [key]) &&
      (forall k, u :: CountOf(b, k, u) == CountOf(g, k, u) + (if k == key && u == t then inc else 0)) &&
      (forall k, u :: RefOf(b, k, u) ==
        if k == key && u == t && (t == CreateEvent || t == DeleteEvent) then Some(entry) else RefOf(g, k, u))
  {
    var b := Bump(g, key, t, inc, entry);
    forall k, u ensures CountOf(b, k, u) == CountOf(g, k, u) + (if k == key && u == t then inc else 0) {
      BumpCount(g, key, t, inc, entry, k, u);
    }
  }

  lemma BumpCount(g: Groups, key: GroupKey, t: EventType, inc: int, entry: RefEntry, k: GroupKey, u: EventType)
    requires AllCounters(g)
    ensures CountOf(Bump(g, key, t, inc, entry), k, u) == CountOf(g, k, u) + (if k == key && u == t then inc else 0)
  {
    if k == key {
      BumpCountOwnGroup(g, key, t, inc, entry, u);
    } else {
      BumpCountOtherGroup(g, key, t, inc, entry, k, u);
    }
  }

  lemma BumpCountOwnGroup(g: Groups, key: GroupKey, t: EventType, inc: int, entry: RefEntry, u: EventType)
    requires AllCounters(g)
    ensures CountOf(Bump(g, key, t, inc, entry), key, u) == CountOf(g, key, u) + (if u == t then inc else 0)
  {
    var c := if key in g.counts then g.counts[key] else ZeroCounters();
    assert Bump(g, key, t, inc, entry).counts[key] == c[t := c[t] + inc];
    assert u in c;
  }

  lemma BumpCountOtherGroup(g: Groups, key: GroupKey, t: EventType, inc: int, entry: RefEntry, k: GroupKey, u: EventType)
    requires AllCounters(g) && k != key
    ensures CountOf(Bump(g, key, t, inc, entry), k, u) == CountOf(g, k, u)
  {
  }

  /** How one event moves the state: a skipped record changes nothing, a
      failing one raises its error, any other one is a Bump of its own group
      and counter. */
  lemma StepCases(g: Groups, e: RawEvent)
    requires AllCounters(g)
    ensures Step(g, e).Err? <==> Fails(e)
    ensures Step(g, e).Err? ==> Step(g, e).error == ErrorOf(e)
    ensures KeyOf(e).None? && !Fails(e) ==> Step(g, e) == Ok(g)
    ensures KeyOf(e).Some? && !Fails(e) ==>
      Hits(e, KeyOf(e).value, ParseTag(e.eventType).value) &&
      Step(g, e) == Ok(Bump(g, KeyOf(e).value, ParseTag(e.eventType).value, Increment(e), EntryOf(e)))
  {
  }

  lemma TallyLast(es: seq<RawEvent>)
    requires |es| > 0 && Tally(es).Ok?
    ensures Tally(es[..|es| - 1]).Ok? && Tally(es) == Step(Tally(es[..|es| - 1]).value, es[|es| - 1])
  {
  }

  lemma OccursLast(es: seq<RawEvent>, k: GroupKey)
    requires |es| > 0
    ensures Occurs(es, k) <==> Occurs(es[..|es| - 1], k) || KeyOf(es[|es| - 1]) == Some(k)
  {
    var p := es[..|es| - 1];
    assert forall i :: 0 <= i < |p| ==> p[i] == es[i];
  }

  /** A record that is skipped (no repository name or no timestamp) changes
      nothing: the state after it is the state before it. */
  lemma SkippedRecordChangesNothing(es: seq<RawEvent>, e: RawEvent)
    requires !Kept(e)
    ensures Tally(es + [e]) == Tally(es)
  {
    assert (es + [e])[..|es|] == es;
  }

  /** The groups are exactly the groups of the kept events: a group exists
      when some kept record with a readable timestamp falls into it, and for no
      other key. */
  lemma {:induction false} TallyGroups(es: seq<RawEvent>, g: Groups)
    requires Tally(es) == Ok(g)
    ensures forall k :: k in g.counts <==> Occurs(es, k)
  {
    if es != [] {
      var p, e := es[..|es| - 1], es[|es| - 1];
      TallyLast(es);
      var g0 := Tally(p).value;
      TallyGroups(p, g0);
      StepCases(g0, e);
      if KeyOf(e).Some? {
        BumpChangesOneCounter(g0, KeyOf(e).value, ParseTag(e.eventType).value, Increment(e), EntryOf(e));
      }
      forall k ensures k in g.counts <==> Occurs(es, k) {
        OccursLast(es, k);
      }
    }
  }

  /** Groups come in the order their first events came: wherever the event
      of a later group stands, an event of every earlier group stands before it. */
  lemma {:induction false} TallyFirstSeenOrder(es: seq<RawEvent>, g: Groups)
    requires Tally(es) == Ok(g)
    ensures forall i, j, n :: 0 <= i < j < |g.order| && 0 <= n < |es| && KeyOf(es[n]) == Some(g.order[j]) ==>
      Occurs(es[..n], g.order[i])
  {
    if es != [] {
      var p, e := es[..|es| - 1], es[|es| - 1];
      TallyLast(es);
      var g0 := Tally(p).value;
      TallyFirstSeenOrder(p, g0);
      OrderStep(es, g0, g);
      forall i, j, n | 0 <= i < j < |g.order| && 0 <= n < |es| && KeyOf(es[n]) == Some(g.order[j])
        ensures Occurs(es[..n], g.order[i])
      {
        if n < |p| {
          FirstSeenEarlier(es, p, g0, g.order, i, j, n);
        } else {
          FirstSeenLast(es, g0, g.order, i, j);
        }
      }
    }
  }

  /** What the last event does to the order of the groups: it keeps it, or
      appends the event's group when that group is new. */
  lemma OrderStep(es: seq<RawEvent>, g0: Groups, g: Groups)
    requires |es| > 0 && Tally(es[..|es| - 1]) == Ok(g0) && Tally(es) == Ok(g)
    ensures forall k :: k in g0.counts <==> Occurs(es[..|es| - 1], k)
    ensures forall k :: k in g0.counts <==> k in g0.order
    ensures g.order == g0.order ||
      (KeyOf(es[|es| - 1]).Some? && KeyOf(es[|es| - 1]).value !in g0.counts && g.order == g0.order + [KeyOf(es[|es| - 1]).value])
  {
    var p, e := es[..|es| - 1], es[|es| - 1];
    TallyLast(es);
    TallyGroups(p, g0);
    TallyShape(p, g0);
    StepCases(g0, e);
    if KeyOf(e).Some? && !Fails(e) {
      BumpChangesOneCounter(g0, KeyOf(e).value, ParseTag(e.eventType).value, Increment(e), EntryOf(e));
    }
  }

  /** The order-preservation step for an event before the last one. */
  lemma FirstSeenEarlier(es: seq<RawEvent>, p: seq<RawEvent>, g0: Groups, order: seq<GroupKey>, i: nat, j: nat, n: nat)
    requires |es| > 0 && p == es[..|es| - 1]
    requires forall k :: k in g0.counts <==> Occurs(p, k)
    requires forall k :: k in g0.counts <==> k in g0.order
    requires forall i, j, n :: 0 <= i < j < |g0.order| && 0 <= n < |p| && KeyOf(p[n]) == Some(g0.order[j]) ==>
      Occurs(p[..n], g0.order[i])
    requires order == g0.order || (KeyOf(es[|es| - 1]).Some? && KeyOf(es[|es| - 1]).value !in g0.counts && order == g0.order + [KeyOf(es[|es| - 1]).value])
    requires i < j < |order| && n < |es| - 1 && KeyOf(es[n]) == Some(order[j])
    ensures Occurs(es[..n], order[i])
  {
    assert p[n] == es[n] && p[..n] == es[..n];
    assert Occurs(p, order[j]);
    assert j < |g0.order|;
    assert order[j] == g0.order[j] && order[i] == g0.order[i];
  }

  /** The order-preservation step for the last event. */
  lemma FirstSeenLast(es: seq<RawEvent>, g0: Groups, order: seq<GroupKey>, i: nat, j: nat)
    requires |es| > 0
    requires forall k :: k in g0.counts <==> Occurs(es[..|es| - 1], k)
    requires forall k :: k in g0.counts <==> k in g0.order
    requires order == g0.order || (KeyOf(es[|es| - 1]).Some? && KeyOf(es[|es| - 1]).value !in g0.counts && order == g0.order + [KeyOf(es[|es| - 1]).value])
    requires i < j < |order|
    ensures Occurs(es[..|es| - 1], order[i])
  {
    assert order[i] == g0.order[i];
    assert order[i] in g0.counts;
  }

  lemma {:induction false} TotalOfAbsentGroup(es: seq<RawEvent>, k: GroupKey, t: EventType)
    requires !Occurs(es, k)
    ensures Total(es, k, t) == 0
  {
    if es != [] {
      OccursLast(es, k);
      TotalOfAbsentGroup(es[..|es| - 1], k, t);
    }
  }

  /** Every counter is the sum of the increments of the events that hit it:
      1 for a size-less or pull-request event, the payload size otherwise. */
  lemma {:induction false} TallyCounts(es: seq<RawEvent>, g: Groups)
    requires Tally(es) == Ok(g)
    ensures forall k, t :: CountOf(g, k, t) == Total(es, k, t)
  {
    if es != [] {
      var p, e := es[..|es| - 1], es[|es| - 1];
      TallyLast(es);
      var g0 := Tally(p).value;
      TallyCounts(p, g0);
      TallyGroups(p, g0);
      StepCases(g0, e);
      if KeyOf(e).Some? {
        BumpChangesOneCounter(g0, KeyOf(e).value, ParseTag(e.eventType).value, Increment(e), EntryOf(e));
      }
      forall k, t ensures CountOf(g, k, t) == Total(es, k, t) {
        if k !in g0.counts {
          TotalOfAbsentGroup(p, k, t);
        }
      }
    }
  }

  /** The references are overwritten, not accumulated: a group holds a
      reference for tag t exactly when t is CreateEvent or DeleteEvent and an
      event hit that counter, and it is the reference of the latest such event. */
  lemma {:induction false} TallyRefs(es: seq<RawEvent>, g: Groups)
    requires Tally(es) == Ok(g)
    ensures forall k, t :: RefOf(g, k, t) == if t == CreateEvent || t == DeleteEvent then LastEntry(es, k, t) else None
  {
    if es != [] {
      var p, e := es[..|es| - 1], es[|es| - 1];
      TallyLast(es);
      var g0 := Tally(p).value;
      TallyRefs(p, g0);
      StepCases(g0, e);
      if KeyOf(e).Some? {
        BumpChangesOneCounter(g0, KeyOf(e).value, ParseTag(e.eventType).value, Increment(e), EntryOf(e));
      }
    }
  }

  /** The loop raises exactly when some kept record fails, and then with the
      error of the first such record. */
  lemma {:induction false} TallyFailure(es: seq<RawEvent>)
    ensures Tally(es).Err? <==> exists i :: 0 <= i < |es| && Fails(es[i])
    ensures Tally(es).Err? ==> exists i :: FirstFailure(es, i) && Tally(es).error == ErrorOf(es[i])
  {
    if es != [] {
      var p, e := es[..|es| - 1], es[|es| - 1];
      TallyFailure(p);
      PrefixFailures(es);
      if Tally(p).Err? {
        var i :| FirstFailure(p, i) && Tally(p).error == ErrorOf(p[i]);
        assert FirstFailure(es, i);
      } else {
        StepCases(Tally(p).value, e);
        if Fails(e) {
          assert FirstFailure(es, |p|);
        }
      }
    }
  }

  /** Record i is the first kept record that fails. */
  predicate FirstFailure(es: seq<RawEvent>, i: int)
  {
    0 <= i < |es| && Fails(es[i]) && forall j :: 0 <= j < i ==> !Fails(es[j])
  }

  lemma PrefixFailures(es: seq<RawEvent>)
    requires es != []
    ensures var p := es[..|es| - 1];
      (forall i :: FirstFailure(p, i) ==> FirstFailure(es, i)) &&
      ((exists i :: 0 <= i < |es| && Fails(es[i])) <==>
        (exists i :: 0 <= i < |p| && Fails(p[i])) || Fails(es[|es| - 1]))
  {
    var p := es[..|es| - 1];
    assert forall i :: 0 <= i < |p| ==> p[i] == es[i];
    if exists i :: 0 <= i < |es| && Fails(es[i]) {
      var i :| 0 <= i < |es| && Fails(es[i]);
      if i < |p| {
        assert Fails(p[i]);
      }
    }
  }
}
