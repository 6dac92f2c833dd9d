/** The event tags of the activity feed, the raw event records, and the
    classifier that turns a typed filter word into a tag (handle_event). */
module Events {
  import opened Outcomes
  import opened Text

  /** The eight event tags the tool counts. */
  datatype EventType =
    | PushEvent | PullRequestEvent | IssuesEvent | WatchEvent
    | ForkEvent | DeleteEvent | IssueCommentEvent | CreateEvent

  /** The order in which a new group's counters are created, and so the order
      in which they are read back when messages are assembled. */
  const CounterOrder: seq<EventType> := [
    PushEvent, PullRequestEvent, IssuesEvent, WatchEvent,
    ForkEvent, DeleteEvent, IssueCommentEvent, CreateEvent]

  /** The tag as the API writes it in an event's "type" field. */
  function TagName(t: EventType): string
  {
    match t
    case PushEvent => "PushEvent"
    case PullRequestEvent => "PullRequestEvent"
    case IssuesEvent => "IssuesEvent"
    case WatchEvent => "WatchEvent"
    case ForkEvent => "ForkEvent"
    case DeleteEvent => "DeleteEvent"
    case IssueCommentEvent => "IssueCommentEvent"
    case CreateEvent => "CreateEvent"
  }

  function FindTag(tags: seq<EventType>, s: string): Option<EventType>
  {
    if tags == [] then None
    else if TagName(tags[0]) == s then Some(tags[0])
    else FindTag(tags[1..], s)
  }

  /** The counter a raw "type" field selects, or None where indexing the
      group's counter dictionary raises KeyError (missing or unknown type). */
  function ParseTag(s: Option<string>): Option<EventType>
  {
    match s
    case None => None
    case Some(name) => FindTag(CounterOrder, name)
  }

  lemma CounterOrderComplete(t: EventType)
    ensures t in CounterOrder
  {
  }

  lemma CounterOrderCoversAll()
    ensures forall t :: t in CounterOrder
  {
    forall t ensures t in CounterOrder {
      CounterOrderComplete(t);
    }
  }

  lemma {:induction false} FindTagSpec(tags: seq<EventType>, s: string)
    ensures FindTag(tags, s).Some? ==> FindTag(tags, s).value in tags && TagName(FindTag(tags, s).value) == s
    ensures (exists t :: t in tags && TagName(t) == s) ==> FindTag(tags, s).Some?
  {
    if tags != [] {
      FindTagSpec(tags[1..], s);
      if exists t :: t in tags && TagName(t) == s {
        var t :| t in tags && TagName(t) == s;
        if t != tags[0] && TagName(tags[0]) != s {
          assert t in tags[1..];
        }
      }
    }
  }

  /** A raw type selects counter t exactly when it is t's API name: ParseTag
      inverts TagName and accepts nothing else. */
  lemma ParseTagInvertsTagName(s: string, t: EventType)
    ensures ParseTag(Some(s)) == Some(t) <==> s == TagName(t)
  {
    FindTagSpec(CounterOrder, s);
    CounterOrderComplete(t);
    if s == TagName(t) {
      TagNameInjective(FindTag(CounterOrder, s).value, t);
    }
    if ParseTag(Some(s)) == Some(t) {
      assert TagName(t) == s;
    }
  }

  lemma TagNameInjective(u: EventType, t: EventType)
    requires TagName(u) == TagName(t)
    ensures u == t
  {
    assert TagName(u)[0] == TagName(t)[0] && |TagName(u)| == |TagName(t)|;
  }

  /** One record of the fetched feed, with the fields the tool reads; each may
      be absent (a missing key or a JSON null). */
  datatype RawEvent = RawEvent(
    eventType: Option<string>,     // "type"
    createdAt: Option<string>,     // "created_at"
    repoName: Option<string>,      // "repo"."name"
    payloadSize: Option<int>,      // "payload"."size"
    payloadRef: Option<string>,    // "payload"."ref"
    payloadRefType: Option<string>,// "payload"."ref_type"
    pullRequestId: Option<int>)    // "payload"."pull_request"."id"

  /** What the classifier makes of a filter word: an event tag, or the
      "NoEvent" marker of an invalid word. */
  datatype Classified = NoEvent | Event(tag: EventType)

  /** The filter words, in the order they are tried. */
  const FilterTable: seq<(string, EventType)> := [
    ("push", PushEvent), ("pull", PullRequestEvent), ("star", WatchEvent),
    ("issues", IssuesEvent), ("fork", ForkEvent), ("delete", DeleteEvent),
    ("comment", IssueCommentEvent), ("create", CreateEvent)]

  /** The first table entry whose word is w, as the early-return loop finds it. */
  function Lookup(table: seq<(string, EventType)>, w: string): Classified
  {
    if table == [] then NoEvent
    else if table[0].0 == w then Event(table[0].1)
    else Lookup(table[1..], w)
  }

  /** handle_event: absent token gives NoEvent; otherwise the lower-cased token
      is looked up, and an unknown word gives NoEvent. It never gives "None". */
  function HandleEvent(token: Option<string>): Classified
  {
    match token
    case None => NoEvent
    case Some(s) => Lookup(FilterTable, Lower(s))
  }

  /** The word that selects each tag; note "star" selects WatchEvent. */
  function Keyword(t: EventType): string
  {
    match t
    case PushEvent => "push"
    case PullRequestEvent => "pull"
    case WatchEvent => "star"
    case IssuesEvent => "issues"
    case ForkEvent => "fork"
    case DeleteEvent => "delete"
    case IssueCommentEvent => "comment"
    case CreateEvent => "create"
  }

  lemma {:induction false} LookupFinds(table: seq<(string, EventType)>, w: string, i: nat)
    requires i < |table| && table[i].0 == w
    requires forall j :: 0 <= j < i ==> table[j].0 != w
    ensures Lookup(table, w) == Event(table[i].1)
  {
    if i > 0 {
      LookupFinds(table[1..], w, i - 1);
    }
  }

  lemma {:induction false} LookupMisses(table: seq<(string, EventType)>, w: string)
    requires forall j :: 0 <= j < |table| ==> table[j].0 != w
    ensures Lookup(table, w) == NoEvent
  {
    if table != [] {
      LookupMisses(table[1..], w);
    }
  }

  /** Where each tag's word sits in the table; no other entry has that word. */
  lemma KeywordEntry(t: EventType) returns (i: nat)
    ensures i < |FilterTable| && FilterTable[i] == (Keyword(t), t)
    ensures forall j :: 0 <= j < |FilterTable| && FilterTable[j].0 == Keyword(t) ==> j == i
  {
    i := match t
      case PushEvent => 0
      case PullRequestEvent => 1
      case WatchEvent => 2
      case IssuesEvent => 3
      case ForkEvent => 4
      case DeleteEvent => 5
      case IssueCommentEvent => 6
      case CreateEvent => 7;
  }

  lemma KeywordsCoverTable(j: nat)
    requires j < |FilterTable|
    ensures FilterTable[j].0 == Keyword(FilterTable[j].1)
  {
  }

  /** A token selects tag t exactly when its lower case is t's word. */
  lemma HandleEventSelects(s: string, t: EventType)
    ensures HandleEvent(Some(s)) == Event(t) <==> Lower(s) == Keyword(t)
  {
    var w := Lower(s);
    if w == Keyword(t) {
      var i := KeywordEntry(t);
      LookupFinds(FilterTable, w, i);
    } else if HandleEvent(Some(s)) == Event(t) {
      if j :| 0 <= j < |FilterTable| && FilterTable[j].0 == w {
        var u := FilterTable[j].1;
        KeywordsCoverTable(j);
        var i := KeywordEntry(u);
        LookupFinds(FilterTable, w, i);
      } else {
        LookupMisses(FilterTable, w);
      }
    }
  }

  /** A token is rejected as "NoEvent" exactly when its lower case is none of
      the eight words. */
  lemma HandleEventRejects(s: string)
    ensures HandleEvent(Some(s)) == NoEvent <==> forall t :: Lower(s) != Keyword(t)
  {
    var w := Lower(s);
    if t :| w == Keyword(t) {
      HandleEventSelects(s, t);
    } else {
      forall j | 0 <= j < |FilterTable| ensures FilterTable[j].0 != w {
        KeywordsCoverTable(j);
      }
      LookupMisses(FilterTable, w);
    }
  }

  /** Classification ignores case: a token and its lower case are classified alike. */
  lemma HandleEventIgnoresCase(s: string)
    ensures HandleEvent(Some(s)) == HandleEvent(Some(Lower(s)))
  {
    LowerIdempotent(s);
  }
}
