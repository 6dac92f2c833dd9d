/** The second half of handle_response: the filter is classified, each
    group's non-zero counters are turned into lines, the lines are collected
    per heading date in first-seen order, and the dates and lines are flattened
    into the list the pager shows. */
module Feed {
  import opened Outcomes
  import opened Events
  import opened Messages
  import opened Aggregation
  import opened Dates
  import opened Seqs

  /** The filter in force: none, one tag, or an invalid word ("NoEvent"). */
  datatype Filter = AllEvents | Only(tag: EventType) | Invalid

  /** An absent or empty event argument means no filter; otherwise the word is
      classified, and "NoEvent" makes the filter invalid. */
  function FilterOf(userEvent: Option<string>): Filter
  {
    if userEvent.None? || userEvent.value == "" then AllEvents
    else match HandleEvent(userEvent)
      case NoEvent => Invalid
      case Event(t) => Only(t)
  }

  /** The counters a filter lets through; an invalid filter lets none through. */
  predicate Selected(f: Filter, t: EventType)
  {
    f.AllEvents? || f == Only(t)
  }

  /** A collected line: the heading date it goes under and its text. */
  datatype Line = Line(date: string, text: string)

  /** The references of a group, or None when it has none. */
  function GroupRefs(g: Groups, k: GroupKey): Option<RefTable>
  {
    if k in g.refs then Some(g.refs[k]) else None
  }

  /** The line counter t of group k contributes under filter f, if any: the
      counter must be selected and positive and its message non-empty. */
  function LineOf(g: Groups, f: Filter, k: GroupKey, t: EventType): Option<Line>
  {
    var n := CountOf(g, k, t);
    var msg := EventMessage(t, n, k.repo, GroupRefs(g, k));
    if Selected(f, t) && n > 0 && msg != "" then Some(Line(k.date, msg)) else None
  }

  /** The lines of group k for the tags ts, in that order. */
  function GroupLines(g: Groups, f: Filter, k: GroupKey, ts: seq<EventType>): seq<Line>
  {
    if ts == [] then []
    else
      GroupLines(g, f, k, ts[..|ts| - 1]) + AsLines(LineOf(g, f, k, ts[|ts| - 1]))
  }

  function AsLines(o: Option<Line>): seq<Line>
  {
    match o
    case None => []
    case Some(line) => [line]
  }

  /** The lines of the groups keys, group after group, each in counter order. */
  function Emitted(g: Groups, f: Filter, keys: seq<GroupKey>): seq<Line>
  {
    if keys == [] then []
    else Emitted(g, f, keys[..|keys| - 1]) + GroupLines(g, f, keys[|keys| - 1], CounterOrder)
  }

  /** The dates of ls, each once, in the order of their first line. */
  function Headings(ls: seq<Line>): seq<string>
  {
    if ls == [] then []
    else
      var ds := Headings(ls[..|ls| - 1]);
      if ls[|ls| - 1].date in ds then ds else ds + [ls[|ls| - 1].date]
  }

  /** The texts of the lines of ls under date d, in order. */
  function On(ls: seq<Line>, d: string): seq<string>
  {
    if ls == [] then []
    else On(ls[..|ls| - 1], d) + (if ls[|ls| - 1].date == d then [ls[|ls| - 1].text] else [])
  }

  /** Each date of ds followed by its lines. */
  function Layout(ls: seq<Line>, ds: seq<string>): seq<string>
  {
    if ds == [] then []
    else Layout(ls, ds[..|ds| - 1]) + [ds[|ds| - 1]] + On(ls, ds[|ds| - 1])
  }

  /** The list handle_response returns for a valid filter. */
  function FeedOf(g: Groups, f: Filter): seq<string>
  {
    var ls := Emitted(g, f, g.order);
    Layout(ls, Headings(ls))
  }

  /** The per-date dictionary of the method holds the lines ls collected so far. */
  ghost predicate BucketsHold(ls: seq<Line>, dates: seq<string>, buckets: map<string, seq<string>>)
  {
    dates == Headings(ls) &&
    (forall d :: d in buckets <==> d in dates) &&
    (forall d :: d in buckets ==> buckets[d] == On(ls, d))
  }

  /** A date is listed exactly when some line stands under it: every heading
      has at least one line below it. */
  lemma {:induction false} DatedLinesExist(ls: seq<Line>, d: string)
    ensures d in Headings(ls) <==> On(ls, d) != []
  {
    if ls != [] {
      DatedLinesExist(ls[..|ls| - 1], d);
    }
  }

  /** Appending one line: its date joins the dates if new, and its text joins
      the lines of that date. */
  lemma AppendLine(ls: seq<Line>, line: Line, dates: seq<string>, buckets: map<string, seq<string>>)
    requires BucketsHold(ls, dates, buckets)
    ensures var b := if line.date in buckets then buckets else buckets[line.date := []];
      BucketsHold(ls + [line],
        if line.date in buckets then dates else dates + [line.date],
        b[line.date := b[line.date] + [line.text]])
  {
    var l2 := ls + [line];
    assert l2[..|l2| - 1] == ls;
    var b := if line.date in buckets then buckets else buckets[line.date := []];
    var b2 := b[line.date := b[line.date] + [line.text]];
    var ds2 := if line.date in buckets then dates else dates + [line.date];
    assert Headings(l2) == ds2;
    forall d | d in b2 ensures b2[d] == On(l2, d) {
      assert On(l2, d) == On(ls, d) + (if line.date == d then [line.text] else []);
      if d == line.date && d !in buckets {
        DatedLinesExist(ls, d);
      }
    }
    forall d ensures d in b2 <==> d in ds2 {
    }
  }

  lemma GroupLinesNext(g: Groups, f: Filter, k: GroupKey, ts: seq<EventType>, j: nat)
    requires j < |ts|
    ensures GroupLines(g, f, k, ts[..j + 1]) == GroupLines(g, f, k, ts[..j]) + AsLines(LineOf(g, f, k, ts[j]))
  {
    assert ts[..j + 1][..j] == ts[..j];
  }

  lemma EmittedNext(g: Groups, f: Filter, keys: seq<GroupKey>, i: nat)
    requires i < |keys|
    ensures Emitted(g, f, keys[..i + 1]) == Emitted(g, f, keys[..i]) + GroupLines(g, f, keys[i], CounterOrder)
  {
    assert keys[..i + 1][..i] == keys[..i];
  }

  lemma LayoutNext(ls: seq<Line>, ds: seq<string>, i: nat)
    requires i < |ds|
    ensures Layout(ls, ds[..i + 1]) == Layout(ls, ds[..i]) + [ds[i]] + On(ls, ds[i])
  {
    assert ds[..i + 1][..i] == ds[..i];
  }

  /** Why the command stops instead of returning a list. */
  datatype FeedError = InvalidEventType(token: string)

  /** One iteration of the inner loop: counter t of group k adds its line, if
      it has one, to the per-date dictionary. */
  method CollectCounter(g: Groups, f: Filter, k: GroupKey, t: EventType, ghost ls: seq<Line>,
                        dates0: seq<string>, buckets0: map<string, seq<string>>)
    returns (dates: seq<string>, buckets: map<string, seq<string>>)
    requires AllCounters(g) && k in g.counts
    requires BucketsHold(ls, dates0, buckets0)
    ensures BucketsHold(ls + AsLines(LineOf(g, f, k, t)), dates, buckets)
  {
    dates, buckets := dates0, buckets0;
    if !f.Invalid? {
      var n := g.counts[k][t];
      var refs := if k in g.refs then Some(g.refs[k]) else None;
      var msg := EventMessage(t, n, k.repo, refs);
      if Selected(f, t) && n > 0 && msg != "" {
        AppendLine(ls, Line(k.date, msg), dates, buckets);
        if k.date !in buckets {
          dates := dates + [k.date];
          buckets := buckets[k.date := []];
        }
        buckets := buckets[k.date := buckets[k.date] + [msg]];
        return;
      }
    }
    assert ls + AsLines(LineOf(g, f, k, t)) == ls;
  }

  /** The inner loop of the message collection: the counters of group k, in
      the order of its counter dictionary (CounterOrder), add their lines to
      the per-date dictionary. */
  method CollectGroup(g: Groups, f: Filter, k: GroupKey, tags: seq<EventType>, ghost ls: seq<Line>,
                      dates0: seq<string>, buckets0: map<string, seq<string>>)
    returns (dates: seq<string>, buckets: map<string, seq<string>>)
    requires AllCounters(g) && k in g.counts
    requires BucketsHold(ls, dates0, buckets0)
    ensures BucketsHold(ls + GroupLines(g, f, k, tags), dates, buckets)
  {
    dates, buckets := dates0, buckets0;
    assert ls + GroupLines(g, f, k, tags[..0]) == ls;
    var j := 0;
    while j < |tags|
      invariant 0 <= j <= |tags|
      invariant BucketsHold(ls + GroupLines(g, f, k, tags[..j]), dates, buckets)
    {
      ghost var more := AsLines(LineOf(g, f, k, tags[j]));
      GroupLinesNext(g, f, k, tags, j);
      Regroup(ls, GroupLines(g, f, k, tags[..j]), more);
      dates, buckets := CollectCounter(g, f, k, tags[j], ls + GroupLines(g, f, k, tags[..j]), dates, buckets);
      j := j + 1;
    }
    assert tags[..j] == tags;
  }

  /** The message-collection loops and the flattening loop of handle_response.
      An invalid filter collects nothing and ends with the invalid-event error;
      otherwise the result is the date-grouped feed. */
  method AssembleFeed(g: Groups, userEvent: Option<string>) returns (r: Result<seq<string>, FeedError>)
    requires Wf(g)
    ensures FilterOf(userEvent).Invalid? ==> userEvent.Some? && r == Err(InvalidEventType(userEvent.value))
    ensures !FilterOf(userEvent).Invalid? ==> r == Ok(FeedOf(g, FilterOf(userEvent)))
  {
    var f := FilterOf(userEvent);
    var dates, buckets := CollectAll(g, f);
    if f.Invalid? {
      return Err(InvalidEventType(userEvent.value));
    }
    var out := Flatten(Emitted(g, f, g.order), dates, buckets);
    return Ok(out);
  }

  /** The outer loop of the message collection: the groups, in first-seen
      order, add their lines to the per-date dictionary. */
  method CollectAll(g: Groups, f: Filter) returns (dates: seq<string>, buckets: map<string, seq<string>>)
    requires Wf(g)
    ensures BucketsHold(Emitted(g, f, g.order), dates, buckets)
  {
    dates, buckets := [], map[];
    var i := 0;
    while i < |g.order|
      invariant 0 <= i <= |g.order|
      invariant BucketsHold(Emitted(g, f, g.order[..i]), dates, buckets)
    {
      EmittedNext(g, f, g.order, i);
      dates, buckets := CollectGroup(g, f, g.order[i], CounterOrder, Emitted(g, f, g.order[..i]), dates, buckets);
      i := i + 1;
    }
    assert g.order[..|g.order|] == g.order;
  }

  /** The flattening loop: each date, then its lines, in the order the dates
      were first seen. */
  method Flatten(ghost ls: seq<Line>, dates: seq<string>, buckets: map<string, seq<string>>) returns (out: seq<string>)
    requires BucketsHold(ls, dates, buckets)
    ensures out == Layout(ls, Headings(ls))
  {
    out := [];
    var d := 0;
    while d < |dates|
      invariant 0 <= d <= |dates|
      invariant out == Layout(ls, dates[..d])
    {
      LayoutNext(ls, dates, d);
      out := out + [dates[d]] + buckets[dates[d]];
      d := d + 1;
    }
    assert dates[..|dates|] == dates;
  }

  /** The filter classification: no argument or an empty one filters nothing,
      a keyword of the table (in any ASCII case) selects its tag, and any other
      word is invalid. */
  lemma FilterOfCases(userEvent: Option<string>)
    ensures FilterOf(userEvent) == AllEvents <==> userEvent.None? || userEvent.value == ""
    ensures forall t :: FilterOf(userEvent) == Only(t) <==>
      userEvent.Some? && userEvent.value != "" && Text.Lower(userEvent.value) == Keyword(t)
    ensures FilterOf(userEvent) == Invalid <==>
      userEvent.Some? && userEvent.value != "" && forall t :: Text.Lower(userEvent.value) != Keyword(t)
  {
    if userEvent.Some? && userEvent.value != "" {
      var s := userEvent.value;
      HandleEventRejects(s);
      forall t ensures FilterOf(userEvent) == Only(t) <==> Text.Lower(s) == Keyword(t) {
        HandleEventSelects(s, t);
      }
    }
  }

  /** Every line of group k for the tags ts is contributed by one of them. */
  lemma {:induction false} GroupLinesSound(g: Groups, f: Filter, k: GroupKey, ts: seq<EventType>, line: Line)
    requires line in GroupLines(g, f, k, ts)
    ensures exists j :: 0 <= j < |ts| && LineOf(g, f, k, ts[j]) == Some(line)
  {
    var p := ts[..|ts| - 1];
    var o := LineOf(g, f, k, ts[|ts| - 1]);
    assert GroupLines(g, f, k, ts) == GroupLines(g, f, k, p) + AsLines(o);
    if line in GroupLines(g, f, k, p) {
      GroupLinesSound(g, f, k, p, line);
      var j :| 0 <= j < |p| && LineOf(g, f, k, p[j]) == Some(line);
      assert ts[j] == p[j];
    } else {
      assert o == Some(line);
    }
  }

  /** Every line a counter of the tags ts contributes is among the lines of
      group k. */
  lemma {:induction false} GroupLinesComplete(g: Groups, f: Filter, k: GroupKey, ts: seq<EventType>, j: nat, line: Line)
    requires j < |ts| && LineOf(g, f, k, ts[j]) == Some(line)
    ensures line in GroupLines(g, f, k, ts)
  {
    var p := ts[..|ts| - 1];
    var o := LineOf(g, f, k, ts[|ts| - 1]);
    assert GroupLines(g, f, k, ts) == GroupLines(g, f, k, p) + AsLines(o);
    if j < |p| {
      assert p[j] == ts[j];
      GroupLinesComplete(g, f, k, p, j, line);
    }
  }

  /** Every collected line is contributed by a counter of one of the groups. */
  lemma {:induction false} EmittedSound(g: Groups, f: Filter, keys: seq<GroupKey>, line: Line)
    requires line in Emitted(g, f, keys)
    ensures exists i, t :: 0 <= i < |keys| && LineOf(g, f, keys[i], t) == Some(line)
  {
    var p := keys[..|keys| - 1];
    var k := keys[|keys| - 1];
    if line in Emitted(g, f, p) {
      EmittedSound(g, f, p, line);
      var i, t :| 0 <= i < |p| && LineOf(g, f, p[i], t) == Some(line);
      assert keys[i] == p[i];
    } else {
      GroupLinesSound(g, f, k, CounterOrder, line);
      var j :| 0 <= j < |CounterOrder| && LineOf(g, f, k, CounterOrder[j]) == Some(line);
      assert keys[|keys| - 1] == k;
    }
  }

  /** Every line a counter of one of the groups contributes is collected. */
  lemma {:induction false} EmittedComplete(g: Groups, f: Filter, keys: seq<GroupKey>, i: nat, t: EventType, line: Line)
    requires i < |keys| && LineOf(g, f, keys[i], t) == Some(line)
    ensures line in Emitted(g, f, keys)
  {
    var p := keys[..|keys| - 1];
    if i < |p| {
      assert p[i] == keys[i];
      EmittedComplete(g, f, p, i, t, line);
    } else {
      CounterOrderComplete(t);
      var j :| 0 <= j < |CounterOrder| && CounterOrder[j] == t;
      GroupLinesComplete(g, f, keys[i], CounterOrder, j, line);
    }
  }

  /** A line is collected from the groups keys exactly when some counter of one
      of those groups contributes it. */
  lemma EmittedExactly(g: Groups, f: Filter, keys: seq<GroupKey>, line: Line)
    ensures line in Emitted(g, f, keys) <==>
      exists i, t :: 0 <= i < |keys| && LineOf(g, f, keys[i], t) == Some(line)
  {
    if line in Emitted(g, f, keys) {
      EmittedSound(g, f, keys, line);
    }
    if exists i, t :: 0 <= i < |keys| && LineOf(g, f, keys[i], t) == Some(line) {
      var i, t :| 0 <= i < |keys| && LineOf(g, f, keys[i], t) == Some(line);
      EmittedComplete(g, f, keys, i, t, line);
    }
  }

  /** With a one-tag filter every collected line is the message of a positive
      counter of that tag. */
  lemma FilterKeepsOneTag(g: Groups, t: EventType, keys: seq<GroupKey>, line: Line)
    requires line in Emitted(g, Only(t), keys)
    ensures exists i :: (0 <= i < |keys| && CountOf(g, keys[i], t) > 0 &&
      line == Line(keys[i].date, EventMessage(t, CountOf(g, keys[i], t), keys[i].repo, GroupRefs(g, keys[i]))))
  {
    EmittedSound(g, Only(t), keys, line);
    var i, u :| 0 <= i < |keys| && LineOf(g, Only(t), keys[i], u) == Some(line);
    assert u == t;
  }

  /** Without a filter every positive counter whose message is not empty has
      its line collected. */
  lemma NoFilterKeepsAll(g: Groups, keys: seq<GroupKey>, i: nat, t: EventType)
    requires i < |keys| && CountOf(g, keys[i], t) > 0
    requires EventMessage(t, CountOf(g, keys[i], t), keys[i].repo, GroupRefs(g, keys[i])) != ""
    ensures Line(keys[i].date, EventMessage(t, CountOf(g, keys[i], t), keys[i].repo, GroupRefs(g, keys[i])))
      in Emitted(g, AllEvents, keys)
  {
    var line := Line(keys[i].date, EventMessage(t, CountOf(g, keys[i], t), keys[i].repo, GroupRefs(g, keys[i])));
    assert LineOf(g, AllEvents, keys[i], t) == Some(line);
    EmittedComplete(g, AllEvents, keys, i, t, line);
  }

  lemma {:induction false} InvalidGroupSilent(g: Groups, k: GroupKey, ts: seq<EventType>)
    ensures GroupLines(g, Invalid, k, ts) == []
  {
    if ts != [] {
      InvalidGroupSilent(g, k, ts[..|ts| - 1]);
    }
  }

  /** An invalid filter collects nothing. */
  lemma {:induction false} InvalidCollectsNothing(g: Groups, keys: seq<GroupKey>)
    ensures Emitted(g, Invalid, keys) == []
  {
    if keys != [] {
      InvalidCollectsNothing(g, keys[..|keys| - 1]);
      InvalidGroupSilent(g, keys[|keys| - 1], CounterOrder);
    }
  }

  /** Some line of ls stands under date d. */
  ghost predicate HasDate(ls: seq<Line>, d: string)
  {
    exists i :: 0 <= i < |ls| && ls[i].date == d
  }

  /** The headings are distinct and are exactly the dates of the lines. */
  lemma {:induction false} HeadingsExactly(ls: seq<Line>)
    ensures Distinct(Headings(ls))
    ensures forall d :: d in Headings(ls) <==> HasDate(ls, d)
  {
    if ls != [] {
      var p := ls[..|ls| - 1];
      HeadingsExactly(p);
      forall d ensures HasDate(ls, d) <==> HasDate(p, d) || ls[|ls| - 1].date == d {
        if HasDate(ls, d) && ls[|ls| - 1].date != d {
          var i :| 0 <= i < |ls| && ls[i].date == d;
          assert p[i] == ls[i];
        }
        if HasDate(p, d) {
          var i :| 0 <= i < |p| && p[i].date == d;
          assert ls[i] == p[i];
        }
      }
    }
  }

  /** The headings come in the order of their first line: wherever a line of a
      later heading stands, a line of every earlier heading stands before it. */
  lemma {:induction false} HeadingsFirstSeen(ls: seq<Line>)
    ensures forall a, b, n :: 0 <= a < b < |Headings(ls)| && 0 <= n < |ls| && ls[n].date == Headings(ls)[b] ==>
      HasDate(ls[..n], Headings(ls)[a])
  {
    if ls != [] {
      var p := ls[..|ls| - 1];
      var ds0, ds := Headings(p), Headings(ls);
      HeadingsFirstSeen(p);
      HeadingsExactly(p);
      forall a, b, n | 0 <= a < b < |ds| && 0 <= n < |ls| && ls[n].date == ds[b]
        ensures HasDate(ls[..n], ds[a])
      {
        assert a < |ds0|;
        if n < |p| {
          assert ls[n] == p[n] && ls[..n] == p[..n];
          assert HasDate(p, ds[b]);
          assert b < |ds0|;
        } else {
          assert ls[..n] == p;
          assert ds0[a] in ds0;
        }
      }
    }
  }

  /** The number of lines under the headings ds. */
  function Spread(ls: seq<Line>, ds: seq<string>): nat
  {
    if ds == [] then 0 else Spread(ls, ds[..|ds| - 1]) + |On(ls, ds[|ds| - 1])|
  }

  lemma {:induction false} LayoutLength(ls: seq<Line>, ds: seq<string>)
    ensures |Layout(ls, ds)| == |ds| + Spread(ls, ds)
  {
    if ds != [] {
      LayoutLength(ls, ds[..|ds| - 1]);
    }
  }

  lemma {:induction false} SpreadAppend(ls: seq<Line>, line: Line, ds: seq<string>)
    requires Distinct(ds)
    ensures Spread(ls + [line], ds) == Spread(ls, ds) + (if line.date in ds then 1 else 0)
  {
    var l2 := ls + [line];
    assert l2[..|l2| - 1] == ls;
    if ds != [] {
      var q := ds[..|ds| - 1];
      assert Distinct(q) by {
        forall i, j | 0 <= i < j < |q| ensures q[i] != q[j] {
          assert q[i] == ds[i] && q[j] == ds[j];
        }
      }
      SpreadAppend(ls, line, q);
      assert line.date in ds <==> line.date in q || line.date == ds[|ds| - 1];
      assert ds[|ds| - 1] !in q by {
        forall i | 0 <= i < |q| ensures q[i] != ds[|ds| - 1] {
          assert q[i] == ds[i];
        }
      }
    }
  }

  /** Every collected line appears under exactly one heading: the headings
      hold |ls| lines between them. */
  lemma {:induction false} SpreadOfHeadings(ls: seq<Line>)
    ensures Spread(ls, Headings(ls)) == |ls|
  {
    if ls != [] {
      var p := ls[..|ls| - 1];
      var line := ls[|ls| - 1];
      assert ls == p + [line];
      SpreadOfHeadings(p);
      HeadingsExactly(p);
      SpreadAppend(p, line, Headings(p));
      if line.date !in Headings(p) {
        DatedLinesExist(p, line.date);
        assert On(ls, line.date) == [line.text];
        assert Headings(ls) == Headings(p) + [line.date];
        assert Headings(ls)[..|Headings(ls)| - 1] == Headings(p);
      }
    }
  }

  /** The assembled list holds one heading per date and each collected line
      once: its length is the number of lines plus the number of dates. */
  lemma FeedLength(g: Groups, f: Filter)
    ensures var ls := Emitted(g, f, g.order);
      |FeedOf(g, f)| == |ls| + |Headings(ls)|
  {
    var ls := Emitted(g, f, g.order);
    LayoutLength(ls, Headings(ls));
    SpreadOfHeadings(ls);
  }

  /** The body the events endpoint returned: a list of events, or a JSON
      object (an error document) given by its fields. */
  datatype Response = EventList(events: seq<RawEvent>) | Document(fields: map<string, string>)

  /** Why handle_response stops instead of returning a list. */
  datatype CommandError =
    | RequestLimitExceeded
    | NoDataReceived
    | AccountNotFound
    | UnreadableDocument
    | Aggregation(cause: AggError)
    | InvalidFilter(token: string)

  /** handle_response: the quota guard, the checks on the body, the
      aggregation loop, the collection and the assembly. remaining is what the
      rate-limit query reported. */
  method HandleResponse(remaining: int, response: Response, userEvent: Option<string>)
    returns (r: Result<seq<string>, CommandError>)
    ensures remaining < 1 ==> r == Err(RequestLimitExceeded)
    ensures remaining >= 1 && response in {EventList([]), Document(map[])} ==> r == Err(NoDataReceived)
    ensures remaining >= 1 && response.Document? && response.fields != map[] ==>
      r == (if ("status" in response.fields && response.fields["status"] == "404") ||
               ("message" in response.fields && response.fields["message"] == "Not Found")
            then Err(AccountNotFound) else Err(UnreadableDocument))
    ensures remaining >= 1 && response.EventList? && response.events != [] ==>
      match Tally(response.events)
      case Err(e) => r == Err(Aggregation(e))
      case Ok(g) => r == (if FilterOf(userEvent) == Invalid then Err(InvalidFilter(userEvent.value))
                          else Ok(FeedOf(g, FilterOf(userEvent))))
  {
    if remaining < 1 {
      return Err(RequestLimitExceeded);
    }
    match response
    case Document(fields) =>
      if fields == map[] {
        return Err(NoDataReceived);
      }
      if ("status" in fields && fields["status"] == "404") || ("message" in fields && fields["message"] == "Not Found") {
        return Err(AccountNotFound);
      }
      return Err(UnreadableDocument);
    case EventList(events) =>
      if events == [] {
        return Err(NoDataReceived);
      }
      var groups := Aggregate(events);
      if groups.Err? {
        return Err(Aggregation(groups.error));
      }
      TallyShape(events, groups.value);
      var feed := AssembleFeed(groups.value, userEvent);
      if feed.Err? {
        return Err(InvalidFilter(feed.error.token));
      }
      return Ok(feed.value);
  }

  /** Every group's date is a heading written by strftime, which never starts
      with '-'. */
  lemma GroupDatesAreHeadings(es: seq<RawEvent>, g: Groups, k: GroupKey)
    requires Tally(es) == Ok(g) && k in g.counts
    ensures |k.date| > 0 && k.date[0] != '-'
  {
    TallyGroups(es, g);
    var i :| 0 <= i < |es| && KeyOf(es[i]) == Some(k);
    HeadingIsNotBullet(ParseTimestamp(es[i].createdAt.value).value);
  }

  /** Every entry of the layout is one of the dates or the text of a line. */
  lemma {:induction false} LayoutEntries(ls: seq<Line>, ds: seq<string>, x: string)
    requires x in Layout(ls, ds)
    ensures x in ds || exists i :: 0 <= i < |ls| && ls[i].text == x
  {
    var p, d := ds[..|ds| - 1], ds[|ds| - 1];
    assert Layout(ls, ds) == Layout(ls, p) + [d] + On(ls, d);
    if x in Layout(ls, p) {
      LayoutEntries(ls, p, x);
      if x in p {
        var j :| 0 <= j < |p| && p[j] == x;
        assert ds[j] == x;
      }
    } else if x in On(ls, d) {
      OnEntries(ls, d, x);
    }
  }

  lemma {:induction false} OnEntries(ls: seq<Line>, d: string, x: string)
    requires x in On(ls, d)
    ensures exists i :: 0 <= i < |ls| && ls[i].text == x
  {
    var p := ls[..|ls| - 1];
    if x in On(p, d) {
      OnEntries(p, d, x);
      var i :| 0 <= i < |p| && p[i].text == x;
      assert ls[i] == p[i];
    } else {
      assert ls[|ls| - 1].text == x;
    }
  }

  /** Every collected line is a "- " bullet under the date of its group. */
  lemma LineShape(es: seq<RawEvent>, g: Groups, f: Filter, line: Line)
    requires Tally(es) == Ok(g) && line in Emitted(g, f, g.order)
    ensures |line.date| > 0 && line.date[0] != '-'
    ensures |line.text| >= 2 && line.text[0] == '-' && line.text[1] == ' '
  {
    TallyShape(es, g);
    EmittedSound(g, f, g.order, line);
    var i, t :| 0 <= i < |g.order| && LineOf(g, f, g.order[i], t) == Some(line);
    var k := g.order[i];
    GroupDatesAreHeadings(es, g, k);
    MessagesAreBullets(t, CountOf(g, k, t), k.repo, GroupRefs(g, k));
  }

  /** The items of the feed are of two kinds that the pager tells apart by
      their first character: the date headings, which do not start with '-',
      and the lines, which start with "- ". */
  lemma FeedItems(es: seq<RawEvent>, g: Groups, f: Filter, x: string)
    requires Tally(es) == Ok(g) && x in FeedOf(g, f)
    ensures var ls := Emitted(g, f, g.order);
      (x in Headings(ls) && |x| > 0 && x[0] != '-') ||
      (x !in Headings(ls) && |x| >= 2 && x[0] == '-' && x[1] == ' ')
  {
    var ls := Emitted(g, f, g.order);
    LayoutEntries(ls, Headings(ls), x);
    HeadingsExactly(ls);
    if x in Headings(ls) {
      var i :| 0 <= i < |ls| && ls[i].date == x;
      LineShape(es, g, f, ls[i]);
    } else {
      var i :| 0 <= i < |ls| && ls[i].text == x;
      LineShape(es, g, f, ls[i]);
    }
  }
}
