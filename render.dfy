/** What `display_results` decides about the collected records (monitor.py,
    `ThreatIntelTool.display_results`): the warning when there are none, and
    otherwise one table row per record whose severity cell is coloured by the
    upper-cased severity label. */
module Render {
  import opened Events
  import opened Text

  datatype Colour = Red | Yellow | Green

  /** The colour expression of the row loop, on the upper-cased severity
      label `sev`: red when it contains "CRIT" or "HIGH", else yellow when it
      contains "MEDIUM", else green. */
  function SeverityColour(sev: string): Colour
  {
    if Contains(sev, "CRIT") || Contains(sev, "HIGH") then Red
    else if Contains(sev, "MEDIUM") then Yellow
    else Green
  }

  /** `part` occurs somewhere in the label. */
  ghost predicate Mentions(sev: string, part: string)
  {
    exists i :: OccursAt(sev, part, i)
  }

  /** The colour rule with its precedence, in terms of occurrences: red
      exactly when "CRIT" or "HIGH" occurs; yellow exactly when neither does
      and "MEDIUM" occurs; green exactly when none of the three does. */
  lemma SeverityColourRule(sev: string)
    ensures SeverityColour(sev) == Red <==> Mentions(sev, "CRIT") || Mentions(sev, "HIGH")
    ensures SeverityColour(sev) == Yellow
        <==> !Mentions(sev, "CRIT") && !Mentions(sev, "HIGH") && Mentions(sev, "MEDIUM")
    ensures SeverityColour(sev) == Green
        <==> !Mentions(sev, "CRIT") && !Mentions(sev, "HIGH") && !Mentions(sev, "MEDIUM")
  {
    ContainsIff(sev, "CRIT");
    ContainsIff(sev, "HIGH");
    ContainsIff(sev, "MEDIUM");
  }

  /** The CVSS v3.1 labels CRITICAL and HIGH are red, and "HIGH" takes
      precedence over "MEDIUM" in one label. */
  lemma RedExamples()
    ensures SeverityColour("CRITICAL") == Red
    ensures SeverityColour("HIGH") == Red
    ensures SeverityColour("MEDIUM-HIGH") == Red
  {
    SeverityColourRule("CRITICAL");
    assert OccursAt("CRITICAL", "CRIT", 0);
    SeverityColourRule("MEDIUM-HIGH");
    assert OccursAt("MEDIUM-HIGH", "HIGH", 7);
  }

  /** The CVSS v3.1 label MEDIUM is yellow. */
  lemma YellowExample()
    ensures SeverityColour("MEDIUM") == Yellow
  {
    AbsentChar("MEDIUM", "CRIT", 'C');
    AbsentChar("MEDIUM", "HIGH", 'H');
  }

  /** A label without any of the letters C, H and M is green. */
  lemma GreenWithout(sev: string)
    requires 'C' !in sev && 'H' !in sev && 'M' !in sev
    ensures SeverityColour(sev) == Green
  {
    AbsentChar(sev, "CRIT", 'C');
    AbsentChar(sev, "HIGH", 'H');
    AbsentChar(sev, "MEDIUM", 'M');
  }

  /** The CVSS v3.1 labels LOW and NONE are green. */
  lemma CvssGreenExamples()
    ensures SeverityColour("LOW") == Green
    ensures SeverityColour("NONE") == Green
  {
    GreenWithout("LOW");
    GreenWithout("NONE");
  }

  /** The "UNKNOWN" a CVE record gets when its severity is missing is green. */
  lemma UnknownIsGreen()
    ensures SeverityColour("UNKNOWN") == Green
  {
    GreenWithout("UNKNOWN");
  }

  /** The "INFO" of every advisory record is green. */
  lemma InfoIsGreen()
    ensures SeverityColour("INFO") == Green
  {
    GreenWithout("INFO");
  }

  /** Upper-casing comes first: a lower-case "high" is shown as "HIGH" in red. */
  lemma LowerCaseExample()
    ensures Upper("high") == "HIGH" && SeverityColour(Upper("high")) == Red
  {
  }

  /** One table row: time, source, identifier (blank for `None`), the
      upper-cased severity with its colour, and the description or link. */
  datatype Row = Row(time: string, source: string, id: Option<string>, severity: string, colour: Colour, info: string)

  /** What the dashboard shows: the "No data retrieved" warning, or the table. */
  datatype Display = NoDataWarning | Table(rows: seq<Row>)

  /** The row `add_row` receives for one record. */
  function RowOf(e: Event): (r: Row)
  {
    var sev := Upper(e.severity);
    Row(e.time, e.source, e.id, sev, SeverityColour(sev), e.info)
  }

  /** A row shows its record unchanged except for the severity, which is the
      upper-cased label in the colour the rule gives it. */
  lemma RowShows(e: Event)
    ensures var r := RowOf(e);
      r.time == e.time && r.source == e.source && r.id == e.id && r.info == e.info
      && |r.severity| == |e.severity|
      && (forall i :: 0 <= i < |r.severity| ==> r.severity[i] == UpperChar(e.severity[i]))
      && (r.colour == Red <==> Mentions(r.severity, "CRIT") || Mentions(r.severity, "HIGH"))
      && (r.colour == Yellow
          <==> !Mentions(r.severity, "CRIT") && !Mentions(r.severity, "HIGH") && Mentions(r.severity, "MEDIUM"))
  {
    SeverityColourRule(Upper(e.severity));
  }
}
