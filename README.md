# Cyber Threat Intelligence Monitor — a verified model of its collection core

`monitor.py` polls the NVD CVE API 2.0 and a list of security-advisory RSS
feeds. It turns what it receives into uniform event records held in one
append-only list, `all_events`. It then shows that list as a colour-coded
table and appends it to a JSON file that accumulates across runs.

This project models that core in Dafny:

- `text.dfy` (`Text`): Python's `s[:n] + "..."`, ASCII `upper()` and the substring test `in`.
- `events.dfy` (`Events`): the event record. It also holds `Appended`, the "append one record per item until the first exception" behaviour of a `for` loop inside a `try`, and `Chain`, several such loops run one after another.
- `nvd.dfy` (`Nvd`): the NVD response with every optional key as an `Option`, and the record `fetch_cves` builds from each vulnerability.
- `advisories.dfy` (`Advisories`): parsed feeds and the records `fetch_rss_feeds` builds from the first three entries of each.
- `render.dfy` (`Render`): the severity-colour rule of `display_results`, its rows and its empty-list warning.
- `persistence.dfy` (`Persistence`): the alert file as an abstract state (missing, not JSON, unreadable, or a decoded JSON value) and the read / `extend` / write merge of `save_to_file`.
- `monitor.dfy` (`Monitor`): the class `ThreatIntelTool` with its field `allEvents`, its methods as loops over that field, and `main` as `RunMonitor`.

The wall clock is a parameter, `Clock = nat -> string`. The record that lands at position `p` of `all_events` is stamped `clock(p)`.

The network, the feed parser and the JSON decoder are replaced by their results:

- an `HttpOutcome` (a decoded body, or `Unavailable`);
- a feed as its list of entries;
- a `FileState`, plus a `writable` flag for whether the file can be reopened for writing.

A failure partway through a loop keeps the records the loop already appended:

- A malformed vulnerability ends `fetch_cves`, but the records appended before it stay in `all_events`: the list is mutated in place inside the `try`.
- Likewise, an advisory entry without a title or link ends its feed, but the records of that feed's earlier entries stay.

## Model

| member | source | states |
|---|---|---|
| Text.Ellipsize | monitor.py:59 | the result is the first min(width, len) characters followed by "..."; its length is at most width + 3; the suffix is added even to short strings |
| Text.Upper | monitor.py:94 | upper-casing keeps the length, maps each character through its capital, and leaves no lower-case ASCII letter |
| Text.ContainsIff | monitor.py:95 | the left-to-right substring search `part in s` holds exactly when `part` occurs at some index of `s` |
| Events.AppendedSpec | monitor.py:49-61 | the loop keeps record k for item k up to the first raising item, and stops exactly there |
| Events.AppendedUnique | monitor.py:49-61 | those facts determine the appended records uniquely |
| Events.AppendedAll | monitor.py:49-60 | when no item raises, there is one record per item |
| Events.AppendedStopsAt | monitor.py:49-62 | when item k is the first to raise, exactly the records of items 0..k-1 are kept |
| Events.ChainSplit | monitor.py:66-78 | running the loops for a list of inputs is running them for a prefix, then for the rest from where the prefix stopped |
| Events.ChainSnoc | monitor.py:66-78 | one more input appends its own batch after the earlier ones |
| Events.ChainAround | monitor.py:66-78 | input i contributes exactly its own batch, between the batches before and after it |
| Nvd.CveEvent | monitor.py:49-60 | the record is built exactly when the vulnerability is well formed. Its fields are the clock reading, "NVD (CVE)", the `cve.id` (possibly absent), the CVSS v3.1 base severity or "UNKNOWN", and the first description truncated to 75 plus "..." |
| Nvd.CveResultsAt | monitor.py:49-55 | loop step k runs on vulnerability k and stamps position at + k |
| Nvd.NoResponseNoEvents | monitor.py:42-49 | a failed request, or a body without "vulnerabilities", appends nothing |
| Nvd.CveEventsAt | monitor.py:49-60 | appended record k is the one built from vulnerability k |
| Nvd.CveEventsComplete | monitor.py:49-58 | on all-well-formed vulnerabilities: one record per vulnerability, in response order, with its id, severity (default "UNKNOWN") and description |
| Nvd.CveEventsPartial | monitor.py:49-62 | when vulnerability k is the first malformed one, records 0..k-1 are kept and nothing from k onward |
| Nvd.CveInfoShape | monitor.py:59 | every CVE `info` ends in "...", is at most 78 characters, starts with a prefix of the description, and is description + "..." when that is short |
| Advisories.FirstEntries | monitor.py:69 | `entries[:3]` is the leading min(3, len) entries of the feed |
| Advisories.AdvisoryEvent | monitor.py:70-76 | the record is built exactly when the entry has a title and a link, otherwise an AttributeError. Its fields are "Advisory", "INFO", the title cut to 30 plus "..." and the link |
| Advisories.EntryResultsAt | monitor.py:69-71 | loop step k runs on entry k and stamps position at + k |
| Advisories.FeedEventsShape | monitor.py:69-76 | one feed yields at most 3 records and at most one per entry. It yields exactly min(3, entries) when those are well formed, and stops at a malformed entry. Record k carries entry k's truncated title and link |
| Advisories.AllFeedEventsStep | monitor.py:66-78 | processing one more feed appends that feed's records after those of the feeds before it |
| Advisories.FeedIsolation | monitor.py:66-78 | feed i contributes exactly its own records, whatever the other feeds hold; the later feeds are still processed |
| Advisories.AllFeedEventsCount | monitor.py:66-76 | the whole list yields at most 3 records per feed, and exactly min(3, entries) per feed when every entry is well formed |
| Advisories.AllFeedEventsAdvisories | monitor.py:70-74 | every advisory record has source "Advisory" and severity "INFO" |
| Render.SeverityColourRule | monitor.py:95 | red iff "CRIT" or "HIGH" occurs; yellow iff neither occurs and "MEDIUM" does; green iff none of the three occurs |
| Render.RedExamples | monitor.py:95 | CRITICAL and HIGH are red; HIGH wins over MEDIUM in "MEDIUM-HIGH" |
| Render.YellowExample | monitor.py:95 | MEDIUM is yellow |
| Render.GreenWithout | monitor.py:95 | a label without the letters C, H and M is green |
| Render.CvssGreenExamples | monitor.py:95 | LOW and NONE are green |
| Render.UnknownIsGreen | monitor.py:52 | the "UNKNOWN" default severity is shown green |
| Render.InfoIsGreen | monitor.py:74 | the "INFO" severity of advisories is shown green |
| Render.LowerCaseExample | monitor.py:94-95 | upper-casing comes before the colour test: "high" shows as red "HIGH" |
| Render.RowShows | monitor.py:93-103 | a row shows its record's time, source, id and info unchanged, the severity upper-cased, and the colour given by the rule |
| Persistence.EventsJson | monitor.py:116 | `extend` adds one JSON object per record: item k is the object for record k |
| Persistence.EventRoundTrip | monitor.py:116-118 | a stored record object reads back as the record that was saved, a missing id as `null` |
| Persistence.EventsRoundTrip | monitor.py:116-118 | a stored list of records reads back as exactly those records, in order |
| Persistence.EventsOfJsonAppend | monitor.py:116 | reading back a concatenation of stored lists reads back each part |
| Persistence.MergedLaw | monitor.py:107-121 | the save succeeds iff the prior content is missing, not JSON or a list, and the file can be written. The new list is then the prior list followed by the records, and the count is the number of records. On failure the file is unchanged |
| Persistence.SaveReadBack | monitor.py:110-119 | after a successful save the file reads back as its earlier records followed by this run's |
| Persistence.FreshStart | monitor.py:110-118 | a missing or undecodable file followed by one run of K records holds exactly those K records |
| Persistence.SavesAccumulate | monitor.py:110-118 | saving a and then b leaves the file as saving a + b at once |
| Persistence.SaveNothing | monitor.py:110-119 | a run with no records rewrites a list file unchanged and turns a missing or corrupt file into `[]`, logging 0 events |
| Monitor.ThreatIntelTool.constructor | monitor.py:37-38 | a new tool holds no records |
| Monitor.ThreatIntelTool.FetchCves | monitor.py:40-62 | `all_events` becomes its old value followed by the CVE records, so the earlier records form an unchanged prefix |
| Monitor.ThreatIntelTool.FetchFeed | monitor.py:67-78 | one feed appends exactly its `FeedEvents` after the records already there |
| Monitor.ThreatIntelTool.FetchRssFeeds | monitor.py:64-78 | `all_events` becomes its old value followed by the advisory records of every feed, in list order |
| Monitor.ThreatIntelTool.DisplayResults | monitor.py:80-105 | the warning is shown iff there are no records; otherwise one row per record, in order |
| Monitor.ThreatIntelTool.SaveToFile | monitor.py:107-121 | the loop that extends the loaded list gives exactly the merge of `Merged` |
| Monitor.RunMonitor | monitor.py:123-140 | a run collects the CVE records and then the advisory records, shows the warning iff there are none and otherwise one row per record in order, and saves exactly those records (provided the display completes: see "## Left out") |
| Monitor.CollectedOrder | monitor.py:134-137 | every CVE record precedes every advisory record, and all the advisory records are "INFO" |

## Left out

- Monitor.RunMonitor: assumes the display step completes. Rich reads every string cell of the table as console markup when `console.print(table)` runs (monitor.py:105), and the record text is among those cells. A description or title can therefore render differently from the record; for example, `[bold]` is taken as a style. Text such as a stray closing tag `[/api]` raises a markup error, which neither `display_results` nor `main` catches, so the real run ends before `save_to_file` and saves nothing. Rich's markup parser is not part of this model.

- The HTTP request (URL, `resultsPerPage=10`, the 10-second timeout, `raise_for_status`, `response.json()`) is not modelled. Only its outcome is: a decoded body, or a failure that appends nothing.
- `feedparser.parse` and RSS/XML parsing are not modelled. A feed is given as its list of entries, and the fixed list of feed URLs is an input.
- A JSON value of an unexpected type is not modelled, for example `"cvssMetricV31": null` or a body that is not an object. Keys are present-or-absent with their expected types.
- `datetime.now().strftime("%H:%M:%S")` is the `Clock` parameter.
- `Text.Upper` covers ASCII letters only; Python's `str.upper` also maps non-ASCII letters.
- Rich table layout, column styles, the severity markup string `[colour]SEV[/colour]`, the banner and the progress spinners are terminal output. Only the row contents, the colour choice and the warning are modelled.
- `logging` of the caught exceptions is not modelled.
- JSON text encoding with `indent=4`, and the decoding that turns file bytes into a `FileState`, are not modelled.
- An I/O error while `json.dump` writes (a full disk, say) is not modelled. By then `open(..., "w")` has truncated the file, so the real tool reports "Failed to save logs" and leaves the file truncated, earlier records lost. The model assumes that a write which starts also completes.
