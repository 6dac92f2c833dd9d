/** The phrase table that turns one counter of one group into a line of the
    feed (event_message). */
module Messages {
  import opened Outcomes
  import opened Text
  import opened Events

  /** The last reference seen for a create or delete event: the payload's "ref"
      mapped to its "ref_type". */
  datatype RefEntry = RefEntry(refName: Option<string>, refType: Option<string>)

  /** A group's references, keyed by CreateEvent or DeleteEvent. */
  type RefTable = map<EventType, RefEntry>

  /** How an f-string writes an optional string: None prints as "None". */
  function Show(s: Option<string>): string
  {
    match s
    case None => "None"
    case Some(v) => v
  }

  /** The line for a create or delete counter, from the group's reference of
      that event type; empty when there is none or its type is neither
      "repository" nor "branch". A "repository" reference is reported as a
      creation whichever of the two event types recorded it. */
  function RefMessage(t: EventType, repo: string, refs: Option<RefTable>): string
  {
    if refs.None? || t !in refs.value then ""
    else
      var e := refs.value[t];
      if e.refType == Some("repository") then "- Created a new repository " + repo
      else if e.refType == Some("branch") then
        (if t == CreateEvent then "- Created a new branch " else "- Deleted a branch ") + Show(e.refName)
      else ""
  }

  /** The noun's ending: "" for exactly one commit, "s" otherwise. */
  function Plural(n: int): string
  {
    if n == 1 then "" else "s"
  }

  /** The line for counter t with value commits in repository repo, or "" when
      the line is to be suppressed. Only the push phrase uses the count. */
  function EventMessage(t: EventType, commits: int, repo: string, refs: Option<RefTable>): string
  {
    match t
    case PushEvent =>
      "- Pushed " + IntToString(commits) + " commit" + Plural(commits) + " to " + repo
    case PullRequestEvent => "- Opened a pull request in " + repo
    case WatchEvent => "- Starred " + repo
    case IssuesEvent => "- Opened a new issue in " + repo
    case ForkEvent => "- Forked " + repo
    case IssueCommentEvent => "- Commented on an issue in " + repo
    case CreateEvent => RefMessage(t, repo, refs)
    case DeleteEvent => RefMessage(t, repo, refs)
  }

  /** Every line that is not suppressed is a "- " bullet. */
  lemma MessagesAreBullets(t: EventType, commits: int, repo: string, refs: Option<RefTable>)
    ensures var r := EventMessage(t, commits, repo, refs);
      r != "" ==> |r| >= 2 && r[0] == '-' && r[1] == ' '
  {
  }

  /** Apart from create and delete, every counter has a line, and it ends with
      the repository's name. */
  lemma FixedPhrasesNameRepo(t: EventType, commits: int, repo: string, refs: Option<RefTable>)
    requires t != CreateEvent && t != DeleteEvent
    ensures var r := EventMessage(t, commits, repo, refs);
      |r| > |repo| && r[|r| - |repo|..] == repo
  {
  }

  /** Only the push phrase depends on the count. */
  lemma OnlyPushUsesCount(t: EventType, a: int, b: int, repo: string, refs: Option<RefTable>)
    requires t != PushEvent
    ensures EventMessage(t, a, repo, refs) == EventMessage(t, b, repo, refs)
  {
  }

  /** The push line uses the plural noun, "commits", exactly when the count is not 1. */
  lemma PushPlural(commits: int, repo: string, refs: Option<RefTable>)
    ensures var r := EventMessage(PushEvent, commits, repo, refs);
      |r| > |repo| + 5 && (r[|r| - |repo| - 5] == 's' <==> commits != 1)
  {
    var r := EventMessage(PushEvent, commits, repo, refs);
    var noun := " commit" + Plural(commits);
    assert r == ("- Pushed " + IntToString(commits) + noun) + (" to " + repo);
    assert r[|r| - |repo| - 5] == noun[|noun| - 1];
  }

  /** The push line states its count and repository unambiguously: equal push
      lines have equal counts and equal repositories. */
  lemma PushMessageInjective(a: int, b: int, repoA: string, repoB: string, refsA: Option<RefTable>, refsB: Option<RefTable>)
    requires EventMessage(PushEvent, a, repoA, refsA) == EventMessage(PushEvent, b, repoB, refsB)
    ensures a == b && repoA == repoB
  {
    PushLineParts(a, repoA, refsA);
    PushLineParts(b, repoB, refsB);
    var da, db := IntToString(a), IntToString(b);
    var sa, sb := PushTail(a, repoA), PushTail(b, repoB);
    var pre := "- Pushed ";
    assert da + sa == (pre + (da + sa))[|pre|..];
    assert db + sb == (pre + (db + sb))[|pre|..];
    IntToStringRoundTrip(a);
    IntToStringRoundTrip(b);
    SplitAtSpace(da, sa, db, sb);
    assert sa[|sa| - |repoA|..] == repoA;
    assert sb[|sb| - |repoB|..] == repoB;
  }

  /** What follows the count in a push line. */
  function PushTail(n: int, repo: string): string
  {
    " commit" + Plural(n) + " to " + repo
  }

  lemma PushLineParts(n: int, repo: string, refs: Option<RefTable>)
    ensures EventMessage(PushEvent, n, repo, refs) == "- Pushed " + (IntToString(n) + PushTail(n, repo))
    ensures PushTail(n, repo)[0] == ' '
  {
  }

  /** A create or delete counter has a line exactly when the group holds a
      reference of that event type whose type is "repository" or "branch". */
  lemma RefMessagePresent(t: EventType, commits: int, repo: string, refs: Option<RefTable>)
    requires t == CreateEvent || t == DeleteEvent
    ensures EventMessage(t, commits, repo, refs) != "" <==>
      refs.Some? && t in refs.value &&
      (refs.value[t].refType == Some("repository") || refs.value[t].refType == Some("branch"))
  {
  }

  /** A create or delete line reads only the reference of its own event type:
      tables that agree on that entry give the same line, and no table reads as
      an empty one. */
  lemma RefMessageReadsOwnEntry(t: EventType, a: int, b: int, repo: string, m1: RefTable, m2: RefTable)
    requires t == CreateEvent || t == DeleteEvent
    requires (t in m1 <==> t in m2) && (t in m1 ==> m1[t] == m2[t])
    ensures EventMessage(t, a, repo, Some(m1)) == EventMessage(t, b, repo, Some(m2))
    ensures EventMessage(t, a, repo, None) == EventMessage(t, b, repo, Some(map[]))
  {
  }
}
