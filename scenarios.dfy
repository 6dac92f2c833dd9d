/** Whole-command outcomes: the feed a single event produces, and concrete
    runs of the classifier, the aggregation and the assembly. */
module Scenarios {
  import opened Outcomes
  import opened Text
  import opened Dates
  import opened Events
  import opened Messages
  import opened Aggregation
  import opened Feed

  /** When only counter t of group k can contribute, the group's lines are
      that counter's line, if it has one. */
  lemma {:induction false} GroupLinesOfOne(g: Groups, f: Filter, k: GroupKey, ts: seq<EventType>, t: EventType)
    requires Distinct(ts)
    requires forall j :: 0 <= j < |ts| && ts[j] != t ==> LineOf(g, f, k, ts[j]) == None
    ensures GroupLines(g, f, k, ts) == if t in ts then AsLines(LineOf(g, f, k, t)) else []
  {
    if ts != [] {
      var p := ts[..|ts| - 1];
      var u := ts[|ts| - 1];
      assert forall j :: 0 <= j < |p| ==> p[j] == ts[j];
      GroupLinesOfOne(g, f, k, p, t);
      assert t in ts <==> t in p || u == t;
      if u == t {
        assert t !in p;
      }
    }
  }

  /** The feed of a single line: its date, then its text. */
  lemma OneLineFeed(line: Line)
    ensures Layout([line], Headings([line])) == [line.date, line.text]
  {
    var ls := [line];
    var ds := [line.date];
    assert Headings(ls) == ds by {
      assert ls[..0] == [];
    }
    assert On(ls, line.date) == [line.text] by {
      assert ls[..0] == [];
    }
    assert Layout(ls, ds) == [line.date] + On(ls, line.date) by {
      assert ds[..0] == [];
    }
  }

  /** A record kept with a readable timestamp and a known type, tallied alone. */
  lemma TallyOne(e: RawEvent)
    requires KeyOf(e).Some? && ParseTag(e.eventType).Some?
    ensures Tally([e]) == Ok(Bump(Empty, KeyOf(e).value, ParseTag(e.eventType).value, Increment(e), EntryOf(e)))
  {
    assert [e][..0] == [];
    StepCases(Empty, e);
  }

  /** In a group created by one event, only that event's counter is non-zero. */
  lemma OneGroupLines(k: GroupKey, t: EventType, inc: int, entry: RefEntry, f: Filter)
    ensures var g := Bump(Empty, k, t, inc, entry);
      Emitted(g, f, g.order) == AsLines(LineOf(g, f, k, t))
  {
    var g := Bump(Empty, k, t, inc, entry);
    OthersSilent(k, t, inc, entry, f);
    CounterOrderComplete(t);
    CounterOrderDistinct();
    GroupLinesOfOne(g, f, k, CounterOrder, t);
    EmittedOfOne(g, f, k);
  }

  lemma CounterOrderDistinct()
    ensures Distinct(CounterOrder)
  {
  }

  /** The lines of a single group are that group's lines. */
  lemma EmittedOfOne(g: Groups, f: Filter, k: GroupKey)
    requires g.order == [k]
    ensures Emitted(g, f, g.order) == GroupLines(g, f, k, CounterOrder)
  {
    assert [k][..0] == [];
  }

  lemma OthersSilent(k: GroupKey, t: EventType, inc: int, entry: RefEntry, f: Filter)
    ensures var g := Bump(Empty, k, t, inc, entry);
      forall j :: 0 <= j < |CounterOrder| && CounterOrder[j] != t ==> LineOf(g, f, k, CounterOrder[j]) == None
  {
    var g := Bump(Empty, k, t, inc, entry);
    forall j | 0 <= j < |CounterOrder| && CounterOrder[j] != t
      ensures LineOf(g, f, k, CounterOrder[j]) == None
    {
      assert CountOf(g, k, CounterOrder[j]) == 0;
    }
  }

  /** A single recorded event, falling into group k and counter t, gives
      one heading and its line: the message of t with the event's increment
      and, for create/delete, the event's own reference. Nothing is shown when
      the filter does not select t, the increment is not positive, or the
      message is suppressed. */
  lemma SingleEventFeed(e: RawEvent, f: Filter, k: GroupKey, t: EventType)
    requires KeyOf(e) == Some(k) && ParseTag(e.eventType) == Some(t)
    ensures Tally([e]).Ok?
    ensures FeedOf(Tally([e]).value, f) ==
      var m := EventMessage(t, Increment(e), k.repo, SingleRef(t, EntryOf(e)));
      if Selected(f, t) && Increment(e) > 0 && m != "" then [k.date, m] else []
  {
    TallyOne(e);
    var g := Bump(Empty, k, t, Increment(e), EntryOf(e));
    OneGroupLines(k, t, Increment(e), EntryOf(e), f);
    assert GroupRefs(g, k) == SingleRef(t, EntryOf(e));
    assert CountOf(g, k, t) == Increment(e);
    var o := LineOf(g, f, k, t);
    if o.Some? {
      OneLineFeed(o.value);
    }
  }

  /** The references a group created by one event of tag t holds. */
  function SingleRef(t: EventType, entry: RefEntry): Option<RefTable>
  {
    if t == CreateEvent || t == DeleteEvent then Some(map[t := entry]) else None
  }

  /** A push of three commits to a/b at any readable timestamp: unfiltered,
      the feed is that day's heading and the push line. */
  lemma PushScenario(stamp: string)
    requires FormatDate(stamp).Some?
    ensures var e := RawEvent(Some("PushEvent"), Some(stamp), Some("a/b"), Some(3), None, None, None);
      Tally([e]).Ok? &&
      FeedOf(Tally([e]).value, FilterOf(None)) == [FormatDate(stamp).value, "- Pushed 3 commits to a/b"]
  {
    var e := RawEvent(Some("PushEvent"), Some(stamp), Some("a/b"), Some(3), None, None, None);
    var k := GroupKey(FormatDate(stamp).value, "a/b");
    RecordFacts(e, k, PushEvent);
    PushMessage();
    SingleEventFeed(e, AllEvents, k, PushEvent);
  }

  /** The same push under the filter word "Star" (stars are WatchEvents):
      nothing is shown. */
  lemma PushFilteredOut(stamp: string)
    requires FormatDate(stamp).Some?
    ensures var e := RawEvent(Some("PushEvent"), Some(stamp), Some("a/b"), Some(3), None, None, None);
      Tally([e]).Ok? && FeedOf(Tally([e]).value, FilterOf(Some("Star"))) == []
  {
    var e := RawEvent(Some("PushEvent"), Some(stamp), Some("a/b"), Some(3), None, None, None);
    var k := GroupKey(FormatDate(stamp).value, "a/b");
    RecordFacts(e, k, PushEvent);
    StarFilter();
    SingleEventFeed(e, Only(WatchEvent), k, PushEvent);
  }

  /** Where a record with a known type and a readable timestamp falls. */
  lemma RecordFacts(e: RawEvent, k: GroupKey, t: EventType)
    requires e.eventType == Some(TagName(t)) && e.createdAt.Some? && FormatDate(e.createdAt.value).Some?
    requires e.repoName == Some(k.repo) && k.repo != "" && k.date == FormatDate(e.createdAt.value).value
    ensures KeyOf(e) == Some(k) && ParseTag(e.eventType) == Some(t)
  {
    ParseTagInvertsTagName(TagName(t), t);
  }

  lemma PushMessage()
    ensures EventMessage(PushEvent, 3, "a/b", SingleRef(PushEvent, RefEntry(None, None))) == "- Pushed 3 commits to a/b"
  {
    assert IntToString(3) == "3";
  }

  lemma StarFilter()
    ensures FilterOf(Some("Star")) == Only(WatchEvent)
  {
    HandleEventSelects("Star", WatchEvent);
    assert Lower("Star") == "star";
  }

  lemma BranchMessage()
    ensures var entry := RefEntry(Some("feature-x"), Some("branch"));
      EventMessage(CreateEvent, 1, "a/b", SingleRef(CreateEvent, entry)) == "- Created a new branch feature-x"
  {
    var refs := map[CreateEvent := RefEntry(Some("feature-x"), Some("branch"))];
    assert RefMessage(CreateEvent, "a/b", Some(refs)) == "- Created a new branch " + "feature-x";
  }

  /** Creating branch feature-x in a/b is reported under its day as the
      creation of that branch. */
  lemma BranchScenario(stamp: string)
    requires FormatDate(stamp).Some?
    ensures var e := RawEvent(Some("CreateEvent"), Some(stamp), Some("a/b"), None, Some("feature-x"), Some("branch"), None);
      Tally([e]).Ok? &&
      FeedOf(Tally([e]).value, AllEvents) == [FormatDate(stamp).value, "- Created a new branch feature-x"]
  {
    var e := RawEvent(Some("CreateEvent"), Some(stamp), Some("a/b"), None, Some("feature-x"), Some("branch"), None);
    var k := GroupKey(FormatDate(stamp).value, "a/b");
    RecordFacts(e, k, CreateEvent);
    BranchMessage();
    SingleEventFeed(e, AllEvents, k, CreateEvent);
  }

  /** A filter word outside the vocabulary is invalid. */
  lemma BogusFilter()
    ensures FilterOf(Some("bogus")) == Invalid
  {
    HandleEventRejects("bogus");
    assert Lower("bogus") == "bogus";
  }

  /** A release event, a GitHub event type outside the eight counters, makes
      the aggregation fail with an unknown-type error. */
  lemma ReleaseEventFails(stamp: string)
    requires FormatDate(stamp).Some?
    ensures var e := RawEvent(Some("ReleaseEvent"), Some(stamp), Some("a/b"), None, None, None, None);
      Tally([e]) == Err(UnknownEventType(Some("ReleaseEvent")))
  {
    var e := RawEvent(Some("ReleaseEvent"), Some(stamp), Some("a/b"), None, None, None, None);
    ReleaseIsUnknown();
    assert [e][..0] == [];
  }

  lemma ReleaseIsUnknown()
    ensures ParseTag(Some("ReleaseEvent")) == None
  {
    FindTagSpec(CounterOrder, "ReleaseEvent");
    if ParseTag(Some("ReleaseEvent")).Some? {
      assert false;
    }
  }

  /** The heading of the first of January 2024. */
  lemma NewYearHeading()
    ensures FormatDay(Day(2024, 1, 1)) == "January 01, 2024"
  {
    assert NatToString(2024) == "2024";
  }

  /** The canonical timestamp of midnight on the first of January 2024. */
  lemma LiteralStamp()
    ensures Stamp(Day(2024, 1, 1), 0, 0, 0) == "2024-01-01T00:00:00Z"
  {
    assert FourDigits(2024) == "2024";
    assert TwoDigits(1) == "01";
    assert TwoDigits(0) == "00";
  }

  /** The push scenario at the literal timestamp 2024-01-01T00:00:00Z: the
      feed is "January 01, 2024" followed by the push line. */
  lemma LiteralPush()
    ensures var e := RawEvent(Some("PushEvent"), Some("2024-01-01T00:00:00Z"), Some("a/b"), Some(3), None, None, None);
      Tally([e]).Ok? &&
      FeedOf(Tally([e]).value, FilterOf(None)) == ["January 01, 2024", "- Pushed 3 commits to a/b"]
  {
    LiteralStamp();
    ParseStamp(Day(2024, 1, 1), 0, 0, 0);
    NewYearHeading();
    PushScenario("2024-01-01T00:00:00Z");
  }

  /** An hour of 24 is not a time of day: such a timestamp is rejected,
      not rolled over to the next day. */
  lemma HourTwentyFourRejected()
    ensures ParseTimestamp("2024-01-01T24:00:00Z") == None
  {
    var s := "2024-01-01T24:00:00Z";
    assert s[11..13] == "24";
    assert "24"[..1] == "2";
    assert "2"[..0] == [];
    assert DigitsValue("24") == 24;
  }
}
