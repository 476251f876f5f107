/** The normalised event record both fetchers produce, and the shared
    "append one record per item until the first exception" discipline. */
module Events {

  datatype Option<+T> = None | Some(value: T)
  {
    /** Python's `d.get(key, default)` once the key lookup is done. */
    function GetOr(default: T): T
    {
      match this
      case Some(v) => v
      case None => default
    }
  }

  /** The Python exceptions a malformed input raises while a record is built. */
  datatype Fault = IndexError | TypeError | AttributeError

  datatype Result<+T> = Ok(value: T) | Err(fault: Fault)

  /** One row of `all_events`. `id` is `None` for a CVE whose `id` key is absent
      (Python's `None`, JSON `null`). */
  datatype Event = Event(time: string, source: string, id: Option<string>, severity: string, info: string)

  /** The wall clock: the `HH:MM:SS` reading taken when the record that lands at
      a given position of `all_events` is created. */
  type Clock = nat -> string

  /** The records a `for` loop appends when its body, run on the items in
      order, either builds a record or raises: `results[k]` is what the body
      does with item `k`, and the exception ends the loop while the records
      appended before it stay. */
  function Appended(results: seq<Result<Event>>): (r: seq<Event>)
    ensures |r| <= |results|
    decreases |results|
  {
    if results == [] then []
    else match results[0]
      case Err(_) => []
      case Ok(e) => [e] + Appended(results[1..])
  }

  /** What the loop keeps: record `k` is the one built from item `k`, and when
      the loop stopped early, the item it stopped at raised. */
  lemma {:induction false} AppendedSpec(results: seq<Result<Event>>)
    ensures var r := Appended(results);
      && (forall k :: 0 <= k < |r| ==> results[k] == Ok(r[k]))
      && (|r| < |results| ==> results[|r|].Err?)
    decreases |results|
  {
    if results != [] && results[0].Ok? {
      AppendedSpec(results[1..]);
      var r := Appended(results);
      assert r == [results[0].value] + Appended(results[1..]);
      forall k | 0 <= k < |r| ensures results[k] == Ok(r[k]) {
        if k > 0 {
          assert results[1..][k - 1] == results[k];
        }
      }
      if |r| < |results| {
        assert results[1..][|r| - 1] == results[|r|];
      }
    }
  }

  /** These facts determine the appended records: any sequence that
      satisfies them is `Appended(results)`. */
  lemma AppendedUnique(results: seq<Result<Event>>, s: seq<Event>)
    requires |s| <= |results|
    requires forall k :: 0 <= k < |s| ==> results[k] == Ok(s[k])
    requires |s| < |results| ==> results[|s|].Err?
    ensures s == Appended(results)
  {
    AppendedSpec(results);
    var r := Appended(results);
    forall k | 0 <= k < |s| ensures s[k] == r[k] {
      assert results[k] == Ok(r[k]);
    }
  }

  /** When every item builds, one record per item. */
  lemma AppendedAll(results: seq<Result<Event>>)
    requires forall k :: 0 <= k < |results| ==> results[k].Ok?
    ensures |Appended(results)| == |results|
  {
  }

  /** Item `k` is the first to raise: exactly the records of items `0..k-1`
      are kept, and nothing from item `k` onward. */
  lemma AppendedStopsAt(results: seq<Result<Event>>, k: nat)
    requires k < |results|
    requires forall j :: 0 <= j < k ==> results[j].Ok?
    requires results[k].Err?
    ensures |Appended(results)| == k
    ensures Appended(results) == Appended(results[..k])
  {
    AppendedSpec(results);
    var r := Appended(results);
    AppendedSpec(results[..k]);
    var p := Appended(results[..k]);
    forall j | 0 <= j < k ensures p[j] == r[j] {
      assert results[..k][j] == results[j];
    }
  }

  /** Several loops run one after the other, each appending its own batch:
      `batch(x, at)` is what the loop for `x` appends when `all_events` holds
      `at` records, and the next loop starts where it stopped. */
  function Chain<X>(xs: seq<X>, batch: (X, nat) -> seq<Event>, at: nat): seq<Event>
    decreases |xs|
  {
    if xs == [] then []
    else
      var own := batch(xs[0], at);
      own + Chain(xs[1..], batch, at + |own|)
  }

  /** Cutting the chain anywhere: the batches before the cut, then those
      after it, starting where the first part stopped. */
  lemma {:induction false} ChainSplit<X>(xs: seq<X>, i: nat, batch: (X, nat) -> seq<Event>, at: nat)
    requires i <= |xs|
    ensures Chain(xs, batch, at)
         == Chain(xs[..i], batch, at) + Chain(xs[i..], batch, at + |Chain(xs[..i], batch, at)|)
    decreases i
  {
    if i == 0 {
      assert xs[..0] == [] && xs[0..] == xs;
    } else {
      var own := batch(xs[0], at);
      var front := Chain(xs[..i], batch, at);
      var mid := Chain(xs[1..][..i - 1], batch, at + |own|);
      var later := Chain(xs[i..], batch, at + |front|);
      assert xs[..i][0] == xs[0];
      assert xs[..i][1..] == xs[1..][..i - 1];
      assert front == own + mid;
      assert xs[1..][i - 1..] == xs[i..];
      ChainSplit(xs[1..], i - 1, batch, at + |own|);
      assert Chain(xs[1..], batch, at + |own|) == mid + later;
      assert own + (mid + later) == front + later;
    }
  }

  /** A chain of one is that one batch. */
  lemma ChainSingle<X>(x: X, batch: (X, nat) -> seq<Event>, at: nat)
    ensures Chain([x], batch, at) == batch(x, at)
  {
  }

  /** One more batch at the end of a chain. */
  lemma ChainSnoc<X>(xs: seq<X>, x: X, batch: (X, nat) -> seq<Event>, at: nat)
    ensures Chain(xs + [x], batch, at) == Chain(xs, batch, at) + batch(x, at + |Chain(xs, batch, at)|)
  {
    var ys := xs + [x];
    assert ys[..|xs|] == xs;
    assert ys[|xs|..] == [x];
    ChainSplit(ys, |xs|, batch, at);
    var front := Chain(xs, batch, at);
    assert Chain(ys, batch, at) == front + Chain([x], batch, at + |front|);
    ChainSingle(x, batch, at + |front|);
  }

  /** Batch `i` sits between the batches before it and those after it, and
      is exactly `batch(xs[i], ...)` at the position the earlier ones reached. */
  lemma ChainAround<X>(xs: seq<X>, i: nat, batch: (X, nat) -> seq<Event>, at: nat)
    requires i < |xs|
    ensures var before := Chain(xs[..i], batch, at);
      var own := batch(xs[i], at + |before|);
      Chain(xs, batch, at) == before + own + Chain(xs[i + 1..], batch, at + |before| + |own|)
  {
    var before := Chain(xs[..i], batch, at);
    var own := batch(xs[i], at + |before|);
    ChainSplit(xs, i, batch, at);
    var tail := xs[i..];
    assert tail[0] == xs[i];
    assert tail[1..] == xs[i + 1..];
    var after := Chain(xs[i + 1..], batch, at + |before| + |own|);
    assert Chain(tail, batch, at + |before|) == own + after;
  }
}
