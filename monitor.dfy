/** `ThreatIntelTool` (monitor.py): one append-only list `all_events`, filled
    by the CVE fetch and the advisory fetch, then shown and saved; and `main`,
    which runs them in that order. */
module Monitor {
  import opened Events
  import opened Nvd
  import opened Advisories
  import opened Render
  import opened Persistence

  class ThreatIntelTool {
    /** The records collected so far, in the order they were appended. */
    var allEvents: seq<Event>

    constructor()
      ensures allEvents == []
    {
      allEvents := [];
    }

    /** `fetch_cves` on the outcome of the NVD request: one record per
        vulnerability in response order, up to the first malformed one, whose
        exception ends the loop; the records before it stay. Nothing escapes
        to the caller, and records already collected are left alone. */
    method FetchCves(response: HttpOutcome<NvdResponse>, clock: Clock)
      modifies this
      ensures allEvents == old(allEvents) + CveEvents(response, clock, |old(allEvents)|)
    {
      var vs := Vulnerabilities(response);
      ghost var start := allEvents;
      ghost var results := CveResults(vs, clock, |start|);
      var i := 0;
      while i < |vs|
        invariant 0 <= i <= |vs|
        invariant |allEvents| == |start| + i
        invariant allEvents[..|start|] == start
        invariant forall k :: 0 <= k < i ==> results[k] == Ok(allEvents[|start| + k])
      {
        var r := CveEvent(vs[i], clock(|allEvents|));
        CveResultsAt(vs, clock, |start|, i);
        if r.Err? {
          break;
        }
        allEvents := allEvents + [r.value];
        i := i + 1;
      }
      var added := allEvents[|start|..];
      assert forall k :: 0 <= k < |added| ==> results[k] == Ok(added[k]);
      AppendedUnique(results, added);
      assert allEvents == start + added;
    }

    /** The `try` body of `fetch_rss_feeds` for one feed: a record for each of
        the first three entries, up to the first entry lacking a title or a
        link, whose exception ends this feed only. */
    method FetchFeed(feed: Feed, clock: Clock)
      modifies this
      ensures allEvents == old(allEvents) + FeedEvents(feed, clock, |old(allEvents)|)
    {
      var entries := FirstEntries(feed);
      ghost var start := allEvents;
      ghost var results := EntryResults(entries, clock, |start|);
      var i := 0;
      while i < |entries|
        invariant 0 <= i <= |entries|
        invariant |allEvents| == |start| + i
        invariant allEvents[..|start|] == start
        invariant forall k :: 0 <= k < i ==> results[k] == Ok(allEvents[|start| + k])
      {
        var r := AdvisoryEvent(entries[i], clock(|allEvents|));
        EntryResultsAt(entries, clock, |start|, i);
        if r.Err? {
          break;
        }
        allEvents := allEvents + [r.value];
        i := i + 1;
      }
      var added := allEvents[|start|..];
      assert forall k :: 0 <= k < |added| ==> results[k] == Ok(added[k]);
      AppendedUnique(results, added);
      assert allEvents == start + added;
    }

    /** `fetch_rss_feeds` over the parsed feeds, in list order: each feed
        appends its own records, whatever happened to the feeds before it. */
    method FetchRssFeeds(feeds: seq<Feed>, clock: Clock)
      modifies this
      ensures allEvents == old(allEvents) + AllFeedEvents(feeds, clock, |old(allEvents)|)
    {
      ghost var start := allEvents;
      var i := 0;
      while i < |feeds|
        invariant 0 <= i <= |feeds|
        invariant allEvents == start + AllFeedEvents(feeds[..i], clock, |start|)
      {
        FetchFeed(feeds[i], clock);
        AllFeedEventsStep(feeds, i, clock, |start|);
        i := i + 1;
      }
      assert feeds[..i] == feeds;
    }

    /** `display_results`: the warning when nothing was collected, otherwise
        one row per record, in order. */
    method DisplayResults() returns (d: Display)
      ensures d.NoDataWarning? <==> allEvents == []
      ensures d.Table? ==> |d.rows| == |allEvents|
      ensures d.Table? ==> forall k :: 0 <= k < |allEvents| ==> d.rows[k] == RowOf(allEvents[k])
    {
      if allEvents == [] {
        return NoDataWarning;
      }
      var rows: seq<Row> := [];
      for k := 0 to |allEvents|
        invariant |rows| == k
        invariant forall j :: 0 <= j < k ==> rows[j] == RowOf(allEvents[j])
      {
        rows := rows + [RowOf(allEvents[k])];
      }
      return Table(rows);
    }

    /** `save_to_file`: load the prior list, extend it with the records one
        by one, write it back. The outcome is the merge `Merged` describes. */
    method SaveToFile(file: FileState, writable: bool) returns (out: SaveOutcome)
      ensures out == Merged(file, allEvents, writable)
    {
      var prior := PriorList(file);
      if prior.None? {
        return SaveOutcome(file, SaveFailed);
      }
      var data := prior.value;
      for k := 0 to |allEvents|
        invariant data == prior.value + EventsJson(allEvents[..k])
      {
        assert EventsJson(allEvents[..k + 1]) == EventsJson(allEvents[..k]) + [EventJson(allEvents[k])];
        data := data + [EventJson(allEvents[k])];
      }
      assert allEvents[..|allEvents|] == allEvents;
      if !writable {
        return SaveOutcome(file, SaveFailed);
      }
      return SaveOutcome(Holds(JArray(data)), Logged(|allEvents|));
    }
  }

  /** The records one run of `main` collects: the CVE records, then the
      advisory records, the latter stamped from where the former stopped. */
  function Collected(response: HttpOutcome<NvdResponse>, feeds: seq<Feed>, clock: Clock): seq<Event>
  {
    var cves := CveEvents(response, clock, 0);
    cves + AllFeedEvents(feeds, clock, |cves|)
  }

  /** `main`: a fresh tool, the CVE fetch, the advisory fetch, the display
      and the save, in that order. */
  method RunMonitor(response: HttpOutcome<NvdResponse>, feeds: seq<Feed>, clock: Clock,
                    file: FileState, writable: bool)
    returns (collected: seq<Event>, shown: Display, saved: SaveOutcome)
    ensures collected == Collected(response, feeds, clock)
    ensures shown.NoDataWarning? <==> collected == []
    ensures shown.Table? ==> |shown.rows| == |collected|
    ensures shown.Table? ==> forall k :: 0 <= k < |collected| ==> shown.rows[k] == RowOf(collected[k])
    ensures saved == Merged(file, collected, writable)
  {
    var cti := new ThreatIntelTool();
    cti.FetchCves(response, clock);
    cti.FetchRssFeeds(feeds, clock);
    collected := cti.allEvents;
    shown := cti.DisplayResults();
    saved := cti.SaveToFile(file, writable);
  }

  /** The ordering `main` produces: every CVE record comes before every
      advisory record, and the advisory records are all "INFO". */
  lemma CollectedOrder(response: HttpOutcome<NvdResponse>, feeds: seq<Feed>, clock: Clock)
    ensures var all, n := Collected(response, feeds, clock), |CveEvents(response, clock, 0)|;
      && n <= |all|
      && (forall k :: 0 <= k < n ==> all[k].source == NvdSource)
      && (forall k :: n <= k < |all| ==> all[k].source == AdvisorySource && all[k].severity == AdvisorySeverity)
  {
    var cves := CveEvents(response, clock, 0);
    var all := Collected(response, feeds, clock);
    forall k | 0 <= k < |cves| ensures all[k].source == NvdSource {
      CveEventsAt(response, clock, 0, k);
    }
    var rest := AllFeedEvents(feeds, clock, |cves|);
    AllFeedEventsAdvisories(feeds, clock, |cves|);
    forall k | |cves| <= k < |all| ensures all[k].source == AdvisorySource && all[k].severity == AdvisorySeverity {
      assert all[k] == rest[k - |cves|];
    }
  }
}
