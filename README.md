# GitHub user activity: feed aggregation and pager

A Dafny model of the event-processing core of `UserActivity` in the
`github-user-activity-cli` tool. The tool fetches a user's public events from
the GitHub REST API and groups them per day and repository. It turns each
group's counters into one-line summaries ("- Pushed 3 commits to a/b") under
date headings ("January 01, 2024"), and shows the result in a pager that
moves between pages on single keystrokes.

The model covers these parts of `UserActivity`:

- `handle_event`, the classifier of the user's filter word (module `Events`).
- `event_message`, the phrase table (module `Messages`).
- The aggregation loop of `handle_response` (module `Aggregation`).
- The collection, filtering and assembly loops of `handle_response`, with its guards on the API response (module `Feed`).
- `paginate_response` (module `Pager`).

Supporting modules model what the core uses from Python's library:

- `Text`: ASCII `str.lower` and decimal rendering of integers.
- `Dates`: `datetime.strptime("%Y-%m-%dT%H:%M:%SZ")` followed by `strftime("%B %d, %Y")`.

Each loop of `handle_response` and `paginate_response` is a `method` with a
`while` or `for` loop. Its `ensures` ties the result to a recursive
specification function:

- `Aggregate` ties to `Tally`.
- `AssembleFeed`, `CollectAll`, `CollectGroup`, `CollectCounter` and `Flatten` tie to `Emitted`, `Headings`, `On` and `Layout`.
- `Paginate` ties to `Run`/`Session`.
- `RenderBody` ties to `Body`.

The early-return loops of `handle_event` and `event_message` compute a
value and change nothing, so they are functions: the table lookup `Lookup`,
and the phrase choice of `EventMessage` and `RefMessage`. Lemmas then state
what the source promises about all these functions. The
module `Scenarios` works whole commands through: the feed of a single
record in general, and concrete pushes, branch creations, filter words and
unknown event types. The
dictionaries the loops mutate become local `seq`/`map` variables. A group
dictionary's insertion order is kept as an explicit `order` sequence.
`UserActivity` never updates its own fields, so it is not a class.

Errors that end the command (`sys.exit(1)` after a message) and exceptions
(`ValueError` from `strptime`, `KeyError` from the counter dictionary) are
`Err` values of a `Result`. The pager's ends are `PagerEnd` values:

- `NoItems`: exit 1 without rendering.
- `SinglePage`: exit 1 after one render.
- `Quit`: exit 0.
- `AwaitingKey`: the scripted keys ran out while the program would block.

Behaviours of the code worth knowing:

- The aggregation loop runs before the filter word is checked. An unreadable timestamp or an unknown event type therefore ends the command with that error even when the filter word is invalid, and only a clean aggregation reaches the invalid-filter error (lines 330-391).
- An event type outside the eight counters raises `KeyError` at line 361. There is no "unrecognized" category that is counted or skipped. The group of that record has already been created when the error is raised.
- The assembled list holds no blank separator lines: each date is followed directly by its lines (lines 393-396). The blank lines on screen come from the pager. It prints one before every item that does not start with `-`, except the first item of a page (lines 262-268).
- A filter given as the empty string means no filter, because `handle_event` is only called for a truthy argument (line 370).
- Counters are visited in the dictionary's insertion order: Push, PullRequest, Issues, Watch, Fork, Delete, IssueComment, Create (lines 350-359). This is not the order of the filter table.
- A "repository" reference is reported as "Created a new repository" even when it was recorded by a delete event (lines 224-226).

## Model

| member | source | states |
|---|---|---|
| Text.Lower | github_activity_api.py:172 | Lowering keeps the length and maps every character through ASCII lower-casing. |
| Text.LowerIdempotent | github_activity_api.py:172 | Lowering an already lowered word changes nothing. |
| Text.NatToStringRoundTrip | github_activity_api.py:201 | The decimal rendering of a count reads back as that count. |
| Text.NatToStringInjective | github_activity_api.py:201 | Different counts render as different strings. |
| Text.IntToStringRoundTrip | github_activity_api.py:201 | The rendering of any integer count is non-empty, holds no space and parses back to the same integer. |
| Dates.ParseTimestamp | github_activity_api.py:342 | A timestamp is accepted only if it has the `YYYY-MM-DDTHH:MM:SSZ` shape (`T` and `Z` in either case) and names an existing day (year at least 1); the time of day is pinned by `ParseTimestampInverse`. |
| Dates.ParseTimestampInverse | github_activity_api.py:342 | Every accepted timestamp is, apart from the case of `T` and `Z`, the canonical stamp of the returned day at an hour below 24 and a minute and second below 60: the day is the one its digits name. With `ParseStamp` this is a round trip in both directions. |
| Dates.Canonical | github_activity_api.py:342 | Upper-casing the `T` and `Z` separators changes no other character. |
| Dates.FormatDate | github_activity_api.py:342-343 | Heading of a timestamp, or none where it does not parse; its meaning is stated by `SameHeadingSameDay`, `FormatDayInjective` and `HeadingIsNotBullet`. |
| Dates.ParseStamp | github_activity_api.py:342 | Every canonical timestamp of a valid day parses back to that day. |
| Dates.FormatDayInjective | github_activity_api.py:343 | Two days get the same "Month DD, YYYY" heading exactly when they are the same day. |
| Dates.SameHeadingSameDay | github_activity_api.py:342-343 | Two readable timestamps get the same heading exactly when they name the same day, whatever their times. |
| Dates.HeadingIsNotBullet | github_activity_api.py:343 | A heading is non-empty and does not start with `-`. |
| Events.ParseTagInvertsTagName | github_activity_api.py:350-361 | A raw type string selects counter t exactly when it is t's tag name. |
| Events.CounterOrderCoversAll | github_activity_api.py:350-359 | The counter dictionary lists every one of the eight tags. |
| Events.HandleEvent | github_activity_api.py:168-191 | The classifier of a filter word; `HandleEventSelects`, `HandleEventRejects` and `HandleEventIgnoresCase` state what it returns. |
| Events.LookupFinds | github_activity_api.py:184-186 | The lookup returns the tag of the first table entry whose word matches. |
| Events.LookupMisses | github_activity_api.py:188-189 | A word matching no entry classifies as NoEvent. |
| Events.HandleEventSelects | github_activity_api.py:168-186 | A filter word selects tag t exactly when its lower-cased form is t's keyword (push, pull, star, issues, fork, delete, comment, create). |
| Events.HandleEventRejects | github_activity_api.py:168-189 | A filter word yields NoEvent exactly when its lower-cased form is none of the eight keywords. |
| Events.HandleEventIgnoresCase | github_activity_api.py:172 | Classifying a word and classifying its lower-cased form agree. |
| Messages.EventMessage | github_activity_api.py:193-233 | The phrase of a counter; `MessagesAreBullets`, `FixedPhrasesNameRepo`, `OnlyPushUsesCount`, `PushPlural` and `PushMessageInjective` state its properties. |
| Messages.RefMessage | github_activity_api.py:213-233 | The create/delete phrase from the group's references; `RefMessagePresent` and `RefMessageReadsOwnEntry` state its properties. |
| Messages.MessagesAreBullets | github_activity_api.py:193-233 | Every message that is not suppressed starts with `- `. |
| Messages.FixedPhrasesNameRepo | github_activity_api.py:200-211 | Every tag other than create/delete always has a message, and it ends with the repository name. |
| Messages.OnlyPushUsesCount | github_activity_api.py:200-207 | Only the push message depends on the count. |
| Messages.PushPlural | github_activity_api.py:201 | The push message says "commits" exactly when the count is not 1. |
| Messages.PushMessageInjective | github_activity_api.py:201 | Equal push messages have equal counts and equal repositories. |
| Messages.RefMessagePresent | github_activity_api.py:213-233 | A create/delete message is non-empty exactly when the group's references hold an entry of that tag whose type is "repository" or "branch". |
| Messages.RefMessageReadsOwnEntry | github_activity_api.py:213-233 | A create/delete message depends only on the reference of its own tag, and no references reads like an empty table. |
| Aggregation.Kept | github_activity_api.py:339-340 | A record is kept when it has a non-empty repository name and timestamp; `SkippedRecordChangesNothing` states that the others change nothing. |
| Aggregation.Increment | github_activity_api.py:345-346 | What a record adds to its counter; `TallyCounts` states every counter is the sum of these. |
| Aggregation.Bump | github_activity_api.py:348-368 | The update of one kept record; `BumpChangesOneCounter` states that it touches only its own counter and reference and appends a new group. |
| Aggregation.ZeroCounters | github_activity_api.py:349-359 | A new group's counters hold all eight tags at zero. |
| Aggregation.Step | github_activity_api.py:331-368 | One iteration keeps every group's eight counters present. |
| Aggregation.Tally | github_activity_api.py:330-368 | A successful aggregation leaves every group with its eight counters. |
| Aggregation.Aggregate | github_activity_api.py:330-368 | The in-place loop returns exactly the aggregation `Tally` specifies: the same groups, counters, references and error. |
| Aggregation.TallyShape | github_activity_api.py:348-368 | After aggregation each group is listed once, exactly the listed groups have counters, and references exist only for groups. |
| Aggregation.BumpChangesOneCounter | github_activity_api.py:348-368 | One event changes only its own counter of its own group and, for create/delete, only its own reference; a new group goes to the end of the order. |
| Aggregation.SkippedRecordChangesNothing | github_activity_api.py:339-340 | A record without repository name or timestamp changes nothing. |
| Aggregation.TallyGroups | github_activity_api.py:339-359 | The groups are exactly the (heading, repository) keys of the kept records. |
| Aggregation.TallyFirstSeenOrder | github_activity_api.py:348-359 | Groups are ordered by their first record: before any record of a later group stands a record of every earlier group. |
| Aggregation.TallyCounts | github_activity_api.py:345-361 | Every counter is the sum of the increments (payload size, or 1 without size or for a pull request) of the records that hit it. |
| Aggregation.TallyRefs | github_activity_api.py:363-368 | The create/delete reference of a group is that of the last record of that tag in the group; other tags have none. |
| Aggregation.TallyFailure | github_activity_api.py:339-361 | Aggregation fails exactly when some kept record has an unreadable timestamp or a type outside the eight, and the error is that of the first such record. |
| Feed.FilterOfCases | github_activity_api.py:370 | No or empty argument means no filter; a keyword in any ASCII case selects its tag; any other word is invalid. |
| Feed.FilterOf | github_activity_api.py:370 | The filter in force; `FilterOfCases` states all three cases. |
| Feed.FeedOf | github_activity_api.py:373-398 | The returned list; `FeedLength`, `FeedItems`, `HeadingsExactly`, `HeadingsFirstSeen` and `EmittedExactly` state its contents. |
| Feed.CollectCounter | github_activity_api.py:375-385 | One counter adds its line, if it has one, under its date in the per-date dictionary. |
| Feed.CollectGroup | github_activity_api.py:374-385 | The counters of one group, visited in the order of its counter dictionary, add exactly that group's lines to the per-date dictionary. |
| Feed.CollectAll | github_activity_api.py:373-385 | The groups, in first-seen order, leave the per-date dictionary holding exactly the collected lines: its keys are the headings in first-seen order and each key holds the texts under its date. |
| Feed.Flatten | github_activity_api.py:393-396 | Flattening the per-date dictionary gives each heading followed by its lines. |
| Feed.AssembleFeed | github_activity_api.py:370-398 | An invalid filter ends with the invalid-filter error naming the word; otherwise the result is the feed of the groups under the filter. |
| Feed.EmittedExactly | github_activity_api.py:373-385 | A line is collected exactly when some counter of some group is selected by the filter, positive, and has a non-empty message, which is the line's text under the group's date. |
| Feed.EmittedSound | github_activity_api.py:373-385 | Every collected line comes from a counter of one of the groups. |
| Feed.EmittedComplete | github_activity_api.py:373-385 | Every line some counter contributes is collected. |
| Feed.FilterKeepsOneTag | github_activity_api.py:380-383 | With a one-tag filter every line is the message of a positive counter of that tag. |
| Feed.NoFilterKeepsAll | github_activity_api.py:380-383 | Without a filter every positive counter with a non-empty message has its line. |
| Feed.InvalidCollectsNothing | github_activity_api.py:375 | An invalid filter collects no line. |
| Feed.DatedLinesExist | github_activity_api.py:384 | A date is a heading exactly when at least one line stands under it. |
| Feed.HeadingsExactly | github_activity_api.py:384 | The headings are distinct and are exactly the dates of the collected lines. |
| Feed.HeadingsFirstSeen | github_activity_api.py:384-395 | Headings come in the order of their first line. |
| Feed.SpreadOfHeadings | github_activity_api.py:393-396 | The lines under all the headings together are as many as the collected lines. |
| Feed.FeedLength | github_activity_api.py:393-398 | The feed holds one heading per date plus each collected line once. |
| Feed.GroupDatesAreHeadings | github_activity_api.py:342-348 | Every group's date is a heading that does not start with `-`. |
| Feed.LineShape | github_activity_api.py:373-385 | Every collected line is a `- ` bullet under a heading that is not one. |
| Feed.FeedItems | github_activity_api.py:393-398 | Every feed item is either a heading (not starting with `-`) or a line (starting with `- `), never both. |
| Feed.HandleResponse | github_activity_api.py:313-398 | The outcome in every case: quota below 1, an empty body, a "Not Found"/404 document, any other document, an aggregation error, an invalid filter, and otherwise the assembled feed. |
| Scenarios.GroupLinesOfOne | github_activity_api.py:374-385 | When only one counter of a group can contribute, the group's lines are that counter's line, if it has one. |
| Scenarios.SingleEventFeed | github_activity_api.py:330-398 | A single kept, readable record of a known type gives exactly its date heading and its counter's message, with the record's increment and its own reference. It gives nothing when the filter excludes its tag, the increment is not positive or the message is empty. |
| Scenarios.PushScenario | github_activity_api.py:330-398 | A push of 3 commits to a/b gives its day's heading and "- Pushed 3 commits to a/b" when no filter is given. |
| Scenarios.PushFilteredOut | github_activity_api.py:370-385 | Under the filter word "Star", which selects stars, the same push gives an empty feed. |
| Scenarios.BranchScenario | github_activity_api.py:224-231 | Creating branch feature-x gives "- Created a new branch feature-x" under its day's heading. |
| Scenarios.LiteralStamp | github_activity_api.py:342 | The canonical stamp of midnight, 1 January 2024, is "2024-01-01T00:00:00Z". |
| Scenarios.LiteralPush | github_activity_api.py:330-398 | A push of 3 commits to a/b at "2024-01-01T00:00:00Z" gives exactly ["January 01, 2024", "- Pushed 3 commits to a/b"]. |
| Scenarios.HourTwentyFourRejected | github_activity_api.py:342 | "2024-01-01T24:00:00Z" is rejected rather than rolled over to the next day. |
| Scenarios.BogusFilter | github_activity_api.py:168-189 | The word "bogus" is an invalid filter. |
| Scenarios.ReleaseEventFails | github_activity_api.py:361 | A kept ReleaseEvent record with a readable timestamp ends the aggregation with the unknown-type error. |
| Scenarios.NewYearHeading | github_activity_api.py:343 | The first of January 2024 is headed "January 01, 2024". |
| Pager.CeilingBounds | github_activity_api.py:241-242 | The page count is the ceiling: its pages hold all items, the last page is not empty, and a non-empty list has at least one page. |
| Pager.TotalPages | github_activity_api.py:241-242 | The page count; `CeilingBounds` states it is the ceiling of items over page size. |
| Pager.NextPage | github_activity_api.py:305-311 | A key moves at most one page, keeps the page within 1..total, and changes it exactly for 'n' below the last page or 'p' above the first. |
| Pager.PromptMatchesMoves | github_activity_api.py:275-284 | On a list of several pages the prompt offers 'n' exactly when 'n' moves and 'p' exactly when 'p' moves. |
| Pager.Body | github_activity_api.py:263-269 | The printed page body; `BodyLength`, `BodyAt` and `PosIncreasing` state its contents. |
| Pager.RenderBody | github_activity_api.py:263-269 | The printing loop produces the page body `Body`. |
| Pager.BodyLength | github_activity_api.py:262-268 | Besides its items the body holds only the inserted blank lines. |
| Pager.BodyAt | github_activity_api.py:262-268 | Every item appears in the body, right after a blank line when it is not a bullet and not the page's first item. |
| Pager.PosIncreasing | github_activity_api.py:262-268 | The items keep their order in the body. |
| Pager.ScreenAt | github_activity_api.py:255-284 | One rendered page; `ScreenRange` and `EveryItemShown` state its range and body. |
| Pager.ScreenRange | github_activity_api.py:255-272 | A page shows a non-empty range of at most per-page items, a full page unless it is the last, starting right after the previous page. |
| Pager.EveryItemShown | github_activity_api.py:241-272 | Every item is shown on a page that exists. |
| Pager.RenderPage | github_activity_api.py:255-284 | One render computes the page's range, body and prompt. |
| Pager.Run | github_activity_api.py:249-311 | The session from a page on; `RunSteps` and `RunEnds` state its trace and how it ends. |
| Pager.Session | github_activity_api.py:238-311 | The whole session, empty list first; `Paginate` is proved equal to it. |
| Pager.RunSteps | github_activity_api.py:249-311 | The session starts on the page it is given, the page stays in 1..total, each screen renders its page, and each next page is the previous one moved by a key that was not 'q'. |
| Pager.RunEnds | github_activity_api.py:275-307 | A single page ends after one screen and only a single page ends that way; 'q' ends on the key read after the last screen; running out of keys means every key was read. |
| Pager.Paginate | github_activity_api.py:235-311 | The loop produces exactly the session `Session` specifies, with an empty list ending before any render. |

## Left out

- The network layer and `RateLimit` are not part of this model. The remaining quota from the rate-limit query is a parameter of `HandleResponse`, and the decoded JSON body is a `Response` value.
- Printing is not modelled as text. This covers the error messages, `parser.print_help()`, the page header with its title-cased event name, the footer, the prompt text and "Exiting...". The pager returns `Screen` values that hold the page number, the item range, the printed body and the prompt kind instead.
- Screen clearing through `os.system` is left out.
- Raw terminal reads are a scripted `seq<char>` of keys.
- Text.Lower: only ASCII letters are lowered, while Python's `str.lower` is Unicode-aware. A filter word such as "FOR" followed by the Kelvin sign (U+212A), which Python lowers to "fork", classifies as invalid in the model. Unicode keys pressed in the pager are affected in the same way.
- Dates.FormatDay: writes years below 1000 without padding, as `%Y` does in older CPython releases on glibc; newer releases pad `%Y` to four digits. The two agree on every year from 1000 on, which covers every timestamp the GitHub API sends.
- Dates.ParseTimestamp: accepts only the fixed-width, zero-padded shape the API sends. `strptime` also accepts one-digit month, day and time fields and non-ASCII digits; such timestamps are a `BadTimestamp` error in the model.
- JSON values of unexpected types are not modelled. Examples are a payload size that is not an integer and a repository that is not an object; the record fields are typed options.
- A JSON object body that is neither empty nor a "Not Found" document is `UnreadableDocument`. In the source the loop then iterates over the object's keys and fails with `AttributeError`.
- `event_message` is only reached with the eight counter tags, so its fall-through for other strings is not modelled. The unreachable `return None` of `handle_event` (line 191) is not modelled either.
- Pager.Paginate: requires at least one item per page. The source divides by the page size, and its caller always passes the default of 20.
- Python's arbitrary-precision integers match Dafny's `int`, so no overflow is modelled.
- The "No activity found" check on an empty feed and the later quota warning belong to `main`, not to the core. They are not part of this model.
