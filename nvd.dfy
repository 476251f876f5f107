/** The NVD CVE API 2.0 response as `fetch_cves` reads it, and the record it
    builds from each vulnerability (monitor.py, `ThreatIntelTool.fetch_cves`).
    Every JSON key that may be absent is an `Option`. */
module Nvd {
  import opened Events
  import opened Text

  datatype CvssData = CvssData(baseSeverity: Option<string>)
  datatype CvssMetric = CvssMetric(cvssData: Option<CvssData>)
  datatype Metrics = Metrics(cvssMetricV31: Option<seq<CvssMetric>>)
  datatype Description = Description(value: Option<string>)
  datatype Cve = Cve(id: Option<string>, metrics: Option<Metrics>, descriptions: Option<seq<Description>>)
  datatype Vulnerability = Vulnerability(cve: Option<Cve>)
  datatype NvdResponse = NvdResponse(vulnerabilities: Option<seq<Vulnerability>>)

  /** What `requests.get(...)`, `raise_for_status()` and `response.json()`
      deliver together: a decoded body, or an exception (network failure,
      timeout, non-2xx status, undecodable JSON). */
  datatype HttpOutcome<+T> = Unavailable | Received(body: T)

  const NvdSource := "NVD (CVE)"
  const UnknownSeverity := "UNKNOWN"
  const DescriptionWidth: nat := 75

  /** `vulnerability.get("cve", {})`. */
  function CveOf(v: Vulnerability): Cve
  {
    v.cve.GetOr(Cve(None, None, None))
  }

  /** The vulnerabilities the loop visits: none when the request failed,
      `data.get("vulnerabilities", [])` otherwise. */
  function Vulnerabilities(response: HttpOutcome<NvdResponse>): seq<Vulnerability>
  {
    match response
    case Unavailable => []
    case Received(data) => data.vulnerabilities.GetOr([])
  }

  /** The CVSS v3.1 base severity label, when every key on the path
      metrics → cvssMetricV31 → first metric → cvssData → baseSeverity is there. */
  function DeclaredSeverity(cve: Cve): Option<string>
  {
    if cve.metrics.Some? && cve.metrics.value.cvssMetricV31.Some?
       && cve.metrics.value.cvssMetricV31.value != []
       && cve.metrics.value.cvssMetricV31.value[0].cvssData.Some?
    then cve.metrics.value.cvssMetricV31.value[0].cvssData.value.baseSeverity
    else None
  }

  /** A vulnerability that builds a record: its metric list, when present, is
      not empty, and it has a first description with a `value`. */
  predicate WellFormed(v: Vulnerability)
  {
    var cve := CveOf(v);
    !(cve.metrics.Some? && cve.metrics.value.cvssMetricV31 == Some([]))
    && cve.descriptions.Some? && |cve.descriptions.value| > 0
    && cve.descriptions.value[0].value.Some?
  }

  /** The body of the loop in `fetch_cves` for one vulnerability: the record
      it appends, or the exception that ends the loop. Severity defaults to
      "UNKNOWN" along the `.get` chain, but an empty `cvssMetricV31` list makes
      `[0]` raise; a missing or empty `descriptions`, or a first description
      without `value`, makes the slice raise. */
  function CveEvent(v: Vulnerability, time: string): (r: Result<Event>)
    ensures r.Ok? <==> WellFormed(v)
    ensures r.Ok? ==> r.value.time == time && r.value.source == NvdSource
    ensures r.Ok? ==> r.value.id == CveOf(v).id
    ensures r.Ok? ==> r.value.severity == DeclaredSeverity(CveOf(v)).GetOr(UnknownSeverity)
    ensures r.Ok? ==> r.value.info == Ellipsize(CveOf(v).descriptions.value[0].value.value, DescriptionWidth)
  {
    var cve := CveOf(v);
    var metricList := cve.metrics.GetOr(Metrics(None)).cvssMetricV31.GetOr([CvssMetric(None)]);
    if metricList == [] then Err(IndexError)
    else
      var severity := metricList[0].cvssData.GetOr(CvssData(None)).baseSeverity.GetOr(UnknownSeverity);
      var descriptions := cve.descriptions.GetOr([Description(None)]);
      if descriptions == [] then Err(IndexError)
      else match descriptions[0].value
        case None => Err(TypeError)
        case Some(text) => Ok(Event(time, NvdSource, cve.id, severity, Ellipsize(text, DescriptionWidth)))
  }

  /** What the loop body does with each vulnerability in turn, the `k`-th
      stamped with the clock reading for position `at + k` of `all_events`. */
  function CveResults(vs: seq<Vulnerability>, clock: Clock, at: nat): (rs: seq<Result<Event>>)
    ensures |rs| == |vs|
    decreases |vs|
  {
    if vs == [] then [] else [CveEvent(vs[0], clock(at))] + CveResults(vs[1..], clock, at + 1)
  }

  /** Result `k` is the loop body run on vulnerability `k` at position `at + k`. */
  lemma {:induction false} CveResultsAt(vs: seq<Vulnerability>, clock: Clock, at: nat, k: nat)
    requires k < |vs|
    ensures CveResults(vs, clock, at)[k] == CveEvent(vs[k], clock(at + k))
    decreases k
  {
    if k > 0 {
      CveResultsAt(vs[1..], clock, at + 1, k - 1);
    }
  }

  /** The records `fetch_cves` appends when `all_events` already holds `at` records. */
  function CveEvents(response: HttpOutcome<NvdResponse>, clock: Clock, at: nat): seq<Event>
  {
    Appended(CveResults(Vulnerabilities(response), clock, at))
  }

  /** A failed request, or a body without "vulnerabilities", appends nothing. */
  lemma NoResponseNoEvents(response: HttpOutcome<NvdResponse>, clock: Clock, at: nat)
    requires response.Unavailable? || response.body.vulnerabilities.None?
    ensures CveEvents(response, clock, at) == []
  {
  }

  /** Record `k` of a fetch is vulnerability `k` built at position `at + k`. */
  lemma CveEventsAt(response: HttpOutcome<NvdResponse>, clock: Clock, at: nat, k: nat)
    requires k < |CveEvents(response, clock, at)|
    ensures k < |Vulnerabilities(response)|
    ensures CveEvent(Vulnerabilities(response)[k], clock(at + k)) == Ok(CveEvents(response, clock, at)[k])
  {
    var rs := CveResults(Vulnerabilities(response), clock, at);
    AppendedSpec(rs);
    CveResultsAt(Vulnerabilities(response), clock, at, k);
  }

  /** On a response whose vulnerabilities are all well formed, one record per
      vulnerability in response order, each carrying that vulnerability's id,
      its severity (or "UNKNOWN") and its truncated first description. */
  lemma CveEventsComplete(response: HttpOutcome<NvdResponse>, clock: Clock, at: nat)
    requires forall k :: 0 <= k < |Vulnerabilities(response)| ==> WellFormed(Vulnerabilities(response)[k])
    ensures |CveEvents(response, clock, at)| == |Vulnerabilities(response)|
    ensures forall k :: 0 <= k < |CveEvents(response, clock, at)| ==>
      var v, e := Vulnerabilities(response)[k], CveEvents(response, clock, at)[k];
      WellFormed(v) && e.time == clock(at + k) && e.source == NvdSource && e.id == CveOf(v).id
      && e.severity == DeclaredSeverity(CveOf(v)).GetOr(UnknownSeverity)
      && e.info == Ellipsize(CveOf(v).descriptions.value[0].value.value, DescriptionWidth)
  {
    var vs := Vulnerabilities(response);
    var rs := CveResults(vs, clock, at);
    forall k | 0 <= k < |rs| ensures rs[k].Ok? {
      CveResultsAt(vs, clock, at, k);
    }
    AppendedAll(rs);
    forall k | 0 <= k < |CveEvents(response, clock, at)|
      ensures CveEvent(vs[k], clock(at + k)) == Ok(CveEvents(response, clock, at)[k])
    {
      CveEventsAt(response, clock, at, k);
    }
  }

  /** Vulnerability `k` is the first malformed one: the records of
      vulnerabilities `0..k-1` are appended and none from `k` onward. */
  lemma CveEventsPartial(response: HttpOutcome<NvdResponse>, clock: Clock, at: nat, k: nat)
    requires k < |Vulnerabilities(response)|
    requires forall j :: 0 <= j < k ==> WellFormed(Vulnerabilities(response)[j])
    requires !WellFormed(Vulnerabilities(response)[k])
    ensures |CveEvents(response, clock, at)| == k
    ensures CveEvents(response, clock, at)
         == CveEvents(Received(NvdResponse(Some(Vulnerabilities(response)[..k]))), clock, at)
  {
    var vs := Vulnerabilities(response);
    var rs := CveResults(vs, clock, at);
    forall j | 0 <= j <= k ensures rs[j] == CveEvent(vs[j], clock(at + j)) {
      CveResultsAt(vs, clock, at, j);
    }
    AppendedStopsAt(rs, k);
    var front := CveResults(vs[..k], clock, at);
    forall j | 0 <= j < k ensures rs[..k][j] == front[j] {
      CveResultsAt(vs[..k], clock, at, j);
    }
    assert rs[..k] == front;
  }

  /** Every CVE record's `info` ends in "...", is at most 78 characters long and
      starts with (a prefix of) the description, even when that is short. */
  lemma CveInfoShape(response: HttpOutcome<NvdResponse>, clock: Clock, at: nat, k: nat)
    requires k < |CveEvents(response, clock, at)|
    ensures k < |Vulnerabilities(response)| && WellFormed(Vulnerabilities(response)[k])
    ensures CveEvents(response, clock, at)[k].info
         == Ellipsize(CveOf(Vulnerabilities(response)[k]).descriptions.value[0].value.value, DescriptionWidth)
    ensures var e := CveEvents(response, clock, at)[k];
      var text := CveOf(Vulnerabilities(response)[k]).descriptions.value[0].value.value;
      |e.info| <= DescriptionWidth + 3 && e.info[|e.info| - 3..] == "..."
      && e.info[..|e.info| - 3] <= text
      && (|text| <= DescriptionWidth ==> e.info == text + "...")
  {
    CveEventsAt(response, clock, at, k);
  }
}
