/** The advisory feeds as `fetch_rss_feeds` reads them, and the records it
    builds from their entries (monitor.py, `ThreatIntelTool.fetch_rss_feeds`).
    A feed is the entry list the feed parser produced for one feed URL. */
module Advisories {
  import opened Events
  import opened Text

  /** A parsed feed entry; `title` or `link` is `None` when the entry lacks it. */
  datatype Entry = Entry(title: Option<string>, link: Option<string>)

  type Feed = seq<Entry>

  const AdvisorySource := "Advisory"
  const AdvisorySeverity := "INFO"
  const TitleWidth: nat := 30
  const EntriesPerFeed: nat := 3

  /** `feed.entries[:3]`. */
  function FirstEntries(feed: Feed): (r: seq<Entry>)
    ensures |r| == if |feed| < EntriesPerFeed then |feed| else EntriesPerFeed
    ensures r == feed[..|r|]
  {
    if |feed| < EntriesPerFeed then feed else feed[..EntriesPerFeed]
  }

  /** The loop body for one entry: the record, or the `AttributeError` that
      `entry.title` or `entry.link` raises when the entry lacks it. */
  function AdvisoryEvent(entry: Entry, time: string): (r: Result<Event>)
    ensures r.Ok? <==> entry.title.Some? && entry.link.Some?
    ensures r.Err? ==> r.fault == AttributeError
    ensures r.Ok? ==> (r.value.time == time && r.value.source == AdvisorySource
      && r.value.severity == AdvisorySeverity && r.value.info == entry.link.value)
    ensures r.Ok? ==> r.value.id == Some(Ellipsize(entry.title.value, TitleWidth))
  {
    match entry.title
    case None => Err(AttributeError)
    case Some(title) =>
      match entry.link
      case None => Err(AttributeError)
      case Some(link) => Ok(Event(time, AdvisorySource, Some(Ellipsize(title, TitleWidth)), AdvisorySeverity, link))
  }

  /** What the loop body does with each of the first three entries in turn,
      the `k`-th stamped with the clock reading for position `at + k`. */
  function EntryResults(entries: seq<Entry>, clock: Clock, at: nat): (rs: seq<Result<Event>>)
    ensures |rs| == |entries|
    decreases |entries|
  {
    if entries == [] then [] else [AdvisoryEvent(entries[0], clock(at))] + EntryResults(entries[1..], clock, at + 1)
  }

  /** Result `k` is the loop body run on entry `k` at position `at + k`. */
  lemma {:induction false} EntryResultsAt(entries: seq<Entry>, clock: Clock, at: nat, k: nat)
    requires k < |entries|
    ensures EntryResults(entries, clock, at)[k] == AdvisoryEvent(entries[k], clock(at + k))
    decreases k
  {
    if k > 0 {
      EntryResultsAt(entries[1..], clock, at + 1, k - 1);
    }
  }

  /** The records one feed contributes when `all_events` holds `at` records:
      one per leading entry among the first three, up to the first entry
      lacking a title or a link. */
  function FeedEvents(feed: Feed, clock: Clock, at: nat): seq<Event>
  {
    Appended(EntryResults(FirstEntries(feed), clock, at))
  }

  /** Per-feed cap and per-entry content: at most 3 records and at most one
      per entry; exactly min(3, entries) when those entries all have a title
      and a link; when fewer, the next entry lacks one of them; record `k` is
      entry `k` as an "Advisory" with severity "INFO", the title cut to 30
      characters plus "..." as its id and the link as its info. */
  lemma FeedEventsShape(feed: Feed, clock: Clock, at: nat)
    ensures var r := FeedEvents(feed, clock, at);
      && |r| <= EntriesPerFeed && |r| <= |feed|
      && ((forall k :: 0 <= k < |FirstEntries(feed)| ==> feed[k].title.Some? && feed[k].link.Some?)
          ==> |r| == |FirstEntries(feed)|)
      && (|r| < |FirstEntries(feed)| ==> feed[|r|].title.None? || feed[|r|].link.None?)
      && forall k :: 0 <= k < |r| ==>
           feed[k].title.Some? && feed[k].link.Some?
           && r[k].time == clock(at + k) && r[k].source == AdvisorySource && r[k].severity == AdvisorySeverity
           && r[k].id == Some(Ellipsize(feed[k].title.value, TitleWidth)) && r[k].info == feed[k].link.value
  {
    var entries := FirstEntries(feed);
    var rs := EntryResults(entries, clock, at);
    var r := FeedEvents(feed, clock, at);
    AppendedSpec(rs);
    forall k | 0 <= k < |entries| ensures entries[k] == feed[k] && rs[k] == AdvisoryEvent(feed[k], clock(at + k)) {
      EntryResultsAt(entries, clock, at, k);
    }
    if forall k :: 0 <= k < |entries| ==> feed[k].title.Some? && feed[k].link.Some? {
      AppendedAll(rs);
    }
  }

  /** The per-feed batch, as `Chain` takes it. */
  function FeedBatch(clock: Clock): (Feed, nat) -> seq<Event>
  {
    (feed: Feed, at: nat) => FeedEvents(feed, clock, at)
  }

  /** The records `fetch_rss_feeds` appends for a list of feeds, in list order,
      when `all_events` holds `at` records: each feed's own records, the next
      feed starting where the previous one stopped. */
  function AllFeedEvents(feeds: seq<Feed>, clock: Clock, at: nat): seq<Event>
  {
    Chain(feeds, FeedBatch(clock), at)
  }

  /** One more feed: its records follow those of the feeds before it. */
  lemma AllFeedEventsStep(feeds: seq<Feed>, i: nat, clock: Clock, at: nat)
    requires i < |feeds|
    ensures var before := AllFeedEvents(feeds[..i], clock, at);
      AllFeedEvents(feeds[..i + 1], clock, at) == before + FeedEvents(feeds[i], clock, at + |before|)
  {
    assert feeds[..i + 1] == feeds[..i] + [feeds[i]];
    ChainSnoc(feeds[..i], feeds[i], FeedBatch(clock), at);
  }

  /** Per-feed error isolation: feed `i` contributes exactly its own
      `FeedEvents`, between the records of the feeds before it and those of
      the feeds after it, whatever entries those other feeds hold. */
  lemma FeedIsolation(feeds: seq<Feed>, i: nat, clock: Clock, at: nat)
    requires i < |feeds|
    ensures var before := AllFeedEvents(feeds[..i], clock, at);
      var own := FeedEvents(feeds[i], clock, at + |before|);
      AllFeedEvents(feeds, clock, at)
        == before + own + AllFeedEvents(feeds[i + 1..], clock, at + |before| + |own|)
  {
    ChainAround(feeds, i, FeedBatch(clock), at);
  }

  /** The number of records a list of feeds yields when no entry fails:
      min(3, entries) per feed. */
  function CappedCount(feeds: seq<Feed>): nat
    decreases |feeds|
  {
    if feeds == [] then 0
    else CappedCount(feeds[..|feeds| - 1]) + |FirstEntries(feeds[|feeds| - 1])|
  }

  /** Every entry among the first three of every feed has a title and a link. */
  predicate AllWellFormed(feeds: seq<Feed>)
  {
    forall i, k :: 0 <= i < |feeds| && 0 <= k < |FirstEntries(feeds[i])| ==>
      feeds[i][k].title.Some? && feeds[i][k].link.Some?
  }

  /** Dropping the last feed keeps every remaining entry well formed, and
      the last feed's first three entries are well formed too. */
  lemma AllWellFormedInit(feeds: seq<Feed>)
    requires feeds != [] && AllWellFormed(feeds)
    ensures AllWellFormed(feeds[..|feeds| - 1])
    ensures var last := feeds[|feeds| - 1];
      forall k :: 0 <= k < |FirstEntries(last)| ==> last[k].title.Some? && last[k].link.Some?
  {
  }

  /** Per-feed cap over the whole list: at most 3 records per feed, and
      exactly min(3, entries) per feed when all of those entries are well formed. */
  lemma {:induction false} AllFeedEventsCount(feeds: seq<Feed>, clock: Clock, at: nat)
    ensures |AllFeedEvents(feeds, clock, at)| <= EntriesPerFeed * |feeds|
    ensures |AllFeedEvents(feeds, clock, at)| <= CappedCount(feeds)
    ensures AllWellFormed(feeds) ==> |AllFeedEvents(feeds, clock, at)| == CappedCount(feeds)
    decreases |feeds|
  {
    if feeds == [] {
      assert AllFeedEvents(feeds, clock, at) == [];
    } else {
      var n := |feeds| - 1;
      var init := feeds[..n];
      AllFeedEventsCount(init, clock, at);
      var earlier := AllFeedEvents(init, clock, at);
      var own := FeedEvents(feeds[n], clock, at + |earlier|);
      FeedEventsShape(feeds[n], clock, at + |earlier|);
      AllFeedEventsStep(feeds, n, clock, at);
      assert feeds[..n + 1] == feeds;
      assert |AllFeedEvents(feeds, clock, at)| == |earlier| + |own|;
      if AllWellFormed(feeds) {
        AllWellFormedInit(feeds);
      }
    }
  }

  /** Every record `fetch_rss_feeds` appends is an "Advisory" with severity "INFO". */
  lemma {:induction false} AllFeedEventsAdvisories(feeds: seq<Feed>, clock: Clock, at: nat)
    ensures forall e :: e in AllFeedEvents(feeds, clock, at) ==> e.source == AdvisorySource && e.severity == AdvisorySeverity
    decreases |feeds|
  {
    if feeds != [] {
      var n := |feeds| - 1;
      AllFeedEventsAdvisories(feeds[..n], clock, at);
      var earlier := AllFeedEvents(feeds[..n], clock, at);
      FeedEventsShape(feeds[n], clock, at + |earlier|);
      AllFeedEventsStep(feeds, n, clock, at);
      assert feeds[..n + 1] == feeds;
    }
  }
}
