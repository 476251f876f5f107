/** The JSON file `save_to_file` extends (monitor.py,
    `ThreatIntelTool.save_to_file`): the file as an abstract state, the JSON
    object each record is stored as, and the read / extend / write merge. */
module Persistence {
  import opened Events

  /** A decoded JSON value; an object keeps its members in file order. */
  datatype Json =
    | JNull
    | JBool(b: bool)
    | JNumber(literal: string)
    | JString(s: string)
    | JArray(items: seq<Json>)
    | JObject(members: seq<(string, Json)>)

  /** The alert file as the merge finds it: absent (`FileNotFoundError`), not
      decodable as JSON (`JSONDecodeError`), unreadable for any other reason
      (no permission, a directory, bytes that are not text), or holding a
      decoded JSON value. */
  datatype FileState = Missing | NotJson | Unreadable | Holds(value: Json)

  /** The closing message: "Logged N events", or "Failed to save logs". */
  datatype SaveReport = Logged(count: nat) | SaveFailed

  /** The file after the merge, and the message printed. */
  datatype SaveOutcome = SaveOutcome(file: FileState, report: SaveReport)

  /** The object `json.dump` writes for one record, keys in insertion order;
      an absent CVE id is written as `null`. */
  function EventJson(e: Event): Json
  {
    JObject([
      ("time", JString(e.time)),
      ("source", JString(e.source)),
      ("id", match e.id case None => JNull case Some(id) => JString(id)),
      ("severity", JString(e.severity)),
      ("info", JString(e.info))])
  }

  /** `data.extend(self.all_events)` appends these items, one per record. */
  function EventsJson(es: seq<Event>): (r: seq<Json>)
    ensures |r| == |es|
    ensures forall k :: 0 <= k < |es| ==> r[k] == EventJson(es[k])
  {
    seq(|es|, k requires 0 <= k < |es| => EventJson(es[k]))
  }

  /** The value stored under `key` in an object's members, if any. */
  function Member(members: seq<(string, Json)>, key: string): Option<Json>
    decreases |members|
  {
    if members == [] then None
    else if members[0].0 == key then Some(members[0].1)
    else Member(members[1..], key)
  }

  /** A string-valued member. */
  function StringMember(members: seq<(string, Json)>, key: string): Option<string>
  {
    match Member(members, key)
    case Some(JString(s)) => Some(s)
    case _ => None
  }

  /** Reading a stored record back: an object whose time, source, severity
      and info are strings and whose id is a string or `null`. */
  function EventOfJson(j: Json): Option<Event>
  {
    match j
    case JObject(ms) =>
      var time, source, severity, info := StringMember(ms, "time"), StringMember(ms, "source"),
        StringMember(ms, "severity"), StringMember(ms, "info");
      var id := Member(ms, "id");
      if time.None? || source.None? || severity.None? || info.None? then None
      else (match id
        case Some(JNull) => Some(Event(time.value, source.value, None, severity.value, info.value))
        case Some(JString(s)) => Some(Event(time.value, source.value, Some(s), severity.value, info.value))
        case _ => None)
    case _ => None
  }

  /** A stored record reads back as the record that was saved. */
  lemma EventRoundTrip(e: Event)
    ensures EventOfJson(EventJson(e)) == Some(e)
  {
    var ms := EventJson(e).members;
    assert StringMember(ms, "time") == Some(e.time);
    assert Member(ms, "source") == Member(ms[1..], "source") == Some(JString(e.source));
    assert Member(ms, "id") == Member(ms[1..], "id") == Member(ms[2..], "id") == Some(ms[2].1);
    assert Member(ms, "severity") == Member(ms[1..], "severity") == Member(ms[2..], "severity")
        == Member(ms[3..], "severity") == Some(JString(e.severity));
    assert Member(ms, "info") == Member(ms[1..], "info") == Member(ms[2..], "info")
        == Member(ms[3..], "info") == Member(ms[4..], "info") == Some(JString(e.info));
  }

  /** Decoding a list item by item, failing on the first item that does not decode. */
  function DecodeAll<T, U>(items: seq<T>, decode: T -> Option<U>): Option<seq<U>>
    decreases |items|
  {
    if items == [] then Some([])
    else match (decode(items[0]), DecodeAll(items[1..], decode))
      case (Some(x), Some(xs)) => Some([x] + xs)
      case _ => None
  }

  /** Decoding the concatenation of two lists decodes each part. */
  lemma {:induction false} DecodeAllAppend<T, U>(a: seq<T>, b: seq<T>, decode: T -> Option<U>)
    requires DecodeAll(a, decode).Some? && DecodeAll(b, decode).Some?
    ensures DecodeAll(a + b, decode) == Some(DecodeAll(a, decode).value + DecodeAll(b, decode).value)
    decreases |a|
  {
    if a != [] {
      assert (a + b)[0] == a[0];
      assert (a + b)[1..] == a[1..] + b;
      DecodeAllAppend(a[1..], b, decode);
      var x, rest, vb := decode(a[0]).value, DecodeAll(a[1..], decode).value, DecodeAll(b, decode).value;
      assert [x] + (rest + vb) == ([x] + rest) + vb;
    } else {
      assert a + b == b;
      assert DecodeAll(a, decode).value + DecodeAll(b, decode).value == DecodeAll(b, decode).value;
    }
  }

  /** Reading a list of stored records back, failing on any item that is not one. */
  function EventsOfJson(items: seq<Json>): Option<seq<Event>>
  {
    DecodeAll(items, EventOfJson)
  }

  /** Reading back the concatenation of two lists reads back each part. */
  lemma EventsOfJsonAppend(a: seq<Json>, b: seq<Json>)
    requires EventsOfJson(a).Some? && EventsOfJson(b).Some?
    ensures EventsOfJson(a + b) == Some(EventsOfJson(a).value + EventsOfJson(b).value)
  {
    DecodeAllAppend(a, b, EventOfJson);
  }

  /** Saved records read back as exactly the records saved, in order. */
  lemma {:induction false} EventsRoundTrip(es: seq<Event>)
    ensures EventsOfJson(EventsJson(es)) == Some(es)
    decreases |es|
  {
    if es != [] {
      EventsRoundTrip(es[1..]);
      assert EventsJson(es)[1..] == EventsJson(es[1..]);
      EventRoundTrip(es[0]);
      assert es == [es[0]] + es[1..];
    }
  }

  /** What `data` holds before the `extend`: `[]` for a missing or undecodable
      file, the list for a file holding a JSON array; nothing (the merge
      fails) for an unreadable file or one holding any other JSON value,
      which has no `extend`. */
  function PriorList(file: FileState): Option<seq<Json>>
  {
    match file
    case Missing => Some([])
    case NotJson => Some([])
    case Unreadable => None
    case Holds(JArray(items)) => Some(items)
    case Holds(_) => None
  }

  /** The records the file holds, read back; a missing or undecodable file
      holds none. */
  function StoredEvents(file: FileState): Option<seq<Event>>
  {
    match PriorList(file)
    case None => None
    case Some(items) => EventsOfJson(items)
  }

  /** The whole `save_to_file`: read the prior list, extend it with the
      records, write it back when the file can be opened for writing. */
  function Merged(file: FileState, events: seq<Event>, writable: bool): SaveOutcome
  {
    match PriorList(file)
    case None => SaveOutcome(file, SaveFailed)
    case Some(prior) =>
      if writable then SaveOutcome(Holds(JArray(prior + EventsJson(events))), Logged(|events|))
      else SaveOutcome(file, SaveFailed)
  }

  /** The merge law: the save succeeds exactly when the prior content is a
      list (or missing, or not JSON) and the file can be written; then the
      file holds the prior list followed by one object per record and the
      message counts the records; otherwise the file is left as it was. */
  lemma MergedLaw(file: FileState, events: seq<Event>, writable: bool)
    ensures var out := Merged(file, events, writable);
      && (out.report.Logged? <==> writable && (file.Missing? || file.NotJson? || (file.Holds? && file.value.JArray?)))
      && (out.report.Logged? ==>
            && out.report.count == |events|
            && out.file.Holds? && out.file.value.JArray?
            && out.file.value.items[..|PriorList(file).value|] == PriorList(file).value
            && out.file.value.items[|PriorList(file).value|..] == EventsJson(events))
      && (out.report.SaveFailed? ==> out.file == file)
  {
  }

  /** Reading the file back after a successful save gives the records it held
      before, followed by the records just saved. */
  lemma SaveReadBack(file: FileState, events: seq<Event>)
    requires StoredEvents(file).Some?
    ensures var out := Merged(file, events, true);
      out.report == Logged(|events|) && StoredEvents(out.file) == Some(StoredEvents(file).value + events)
  {
    var prior := PriorList(file).value;
    EventsRoundTrip(events);
    EventsOfJsonAppend(prior, EventsJson(events));
  }

  /** A first run, with no file or an undecodable one, leaves exactly the
      records of that run in the file. */
  lemma FreshStart(file: FileState, events: seq<Event>)
    requires file.Missing? || file.NotJson?
    ensures StoredEvents(Merged(file, events, true).file) == Some(events)
  {
    EventsRoundTrip(events);
    assert [] + EventsJson(events) == EventsJson(events);
  }

  /** Two runs accumulate: saving `a` and then `b` leaves the file as saving
      `a + b` at once would (a file the merge cannot extend stays as it is
      either way). */
  lemma SavesAccumulate(file: FileState, a: seq<Event>, b: seq<Event>)
    ensures Merged(Merged(file, a, true).file, b, true).file == Merged(file, a + b, true).file
  {
    if PriorList(file).Some? {
      var prior := PriorList(file).value;
      assert EventsJson(a + b) == EventsJson(a) + EventsJson(b);
      assert prior + EventsJson(a) + EventsJson(b) == prior + (EventsJson(a) + EventsJson(b));
    }
  }

  /** A run that collected nothing rewrites a list file unchanged, and turns a
      missing or undecodable file into an empty list. */
  lemma SaveNothing(file: FileState)
    requires PriorList(file).Some?
    ensures var out := Merged(file, [], true);
      out.report == Logged(0)
      && out.file == (if file.Holds? then file else Holds(JArray([])))
  {
    assert PriorList(file).value + EventsJson([]) == PriorList(file).value;
  }
}
