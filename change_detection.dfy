/**
  The change detector of the tenant scheduler (`schedule_changed`), as pure
  functions over the per-tenant change markers.

  One call visits the tenant schemas in list order. For each visit the store
  either hands back the tenant's newest change marker (possibly None) or fails
  with an interface error or a database error; a failure skips the tenant. A
  successful fetch is always written back into `diffs`, and the call returns
  true at the first tenant whose marker is strictly newer than the one it had
  recorded.

  `Scan` follows the loop of the source. `Replay` and `ReportsAt` are an
  independent reading of the same behaviour, visit by visit; the lemmas below
  prove the two agree and derive the properties the scheduler relies on.
*/
module ChangeDetection {
  import opened Wrappers

  /** The newest schedule edit a tenant's store reports: a timestamp or None. */
  type Marker = Option<int>

  /** What fetching one tenant's change marker produced. */
  datatype FetchOutcome = Fetched(ts: Marker) | InterfaceErr | DatabaseErr

  datatype ScanResult = ScanResult(changed: bool, diffs: map<string, Marker>)

  /** `diffs.get(schema)`: an absent tenant and a stored None read alike. */
  function LastSeen(diffs: map<string, Marker>, schema: string): Marker
  {
    if schema in diffs then diffs[schema] else None
  }

  /** The test `ts and ts > (last if last else ts)`: a marker counts as new
      only when one was recorded before and the fetched one is later. */
  predicate Newer(ts: Marker, last: Marker)
    ensures Newer(ts, last) <==> ts.Some? && last.Some? && ts.value > last.value
  {
    ts.Some? && ts.value > (if last.Some? then last.value else ts.value)
  }

  /** The effect of one visit on `diffs`: a fetched marker is stored, even None;
      a failed fetch leaves the map alone. */
  function Record(diffs: map<string, Marker>, schema: string, outcome: FetchOutcome): map<string, Marker>
  {
    if outcome.Fetched? then diffs[schema := outcome.ts] else diffs
  }

  /** `diffs` after visiting every tenant of `schemas`, ignoring the early return. */
  function Replay(diffs: map<string, Marker>, schemas: seq<string>, outcomes: seq<FetchOutcome>): map<string, Marker>
    requires |schemas| == |outcomes|
    decreases |schemas|
  {
    if schemas == [] then diffs
    else Replay(Record(diffs, schemas[0], outcomes[0]), schemas[1..], outcomes[1..])
  }

  /** `diffs` as the visit at position `i` finds it. */
  function DiffsBefore(diffs: map<string, Marker>, schemas: seq<string>, outcomes: seq<FetchOutcome>, i: int): map<string, Marker>
    requires |schemas| == |outcomes| && 0 <= i <= |schemas|
  {
    Replay(diffs, schemas[..i], outcomes[..i])
  }

  /** The visit at position `i` would report a change. */
  predicate ReportsAt(diffs: map<string, Marker>, schemas: seq<string>, outcomes: seq<FetchOutcome>, i: int)
    requires |schemas| == |outcomes| && 0 <= i < |schemas|
  {
    outcomes[i].Fetched? && Newer(outcomes[i].ts, LastSeen(DiffsBefore(diffs, schemas, outcomes, i), schemas[i]))
  }

  /** No visit before position `i` reports, so the loop reaches position `i`. */
  predicate Reached(diffs: map<string, Marker>, schemas: seq<string>, outcomes: seq<FetchOutcome>, i: int)
    requires |schemas| == |outcomes| && 0 <= i <= |schemas|
  {
    forall j :: 0 <= j < i ==> !ReportsAt(diffs, schemas, outcomes, j)
  }

  /** The loop of `schedule_changed`: the result and the new `diffs`. */
  function Scan(diffs: map<string, Marker>, schemas: seq<string>, outcomes: seq<FetchOutcome>): ScanResult
    requires |schemas| == |outcomes|
    decreases |schemas|
  {
    if schemas == [] then ScanResult(false, diffs)
    else
      match outcomes[0]
      case Fetched(ts) =>
        var recorded := diffs[schemas[0] := ts];
        if Newer(ts, LastSeen(diffs, schemas[0])) then ScanResult(true, recorded)
        else Scan(recorded, schemas[1..], outcomes[1..])
      case _ => Scan(diffs, schemas[1..], outcomes[1..])
  }

  /** Two maps agree on one tenant. */
  predicate SameEntry(m: map<string, Marker>, m': map<string, Marker>, schema: string)
  {
    (schema in m <==> schema in m') && (schema in m ==> m[schema] == m'[schema])
  }

  /** The tenant is recorded with exactly this marker. */
  predicate Holds(m: map<string, Marker>, schema: string, ts: Marker)
  {
    schema in m && m[schema] == ts
  }

  /** Every successful fetch of the same tenant yields the same marker: there
      is no store edit between the visits considered. */
  predicate ConsistentFetches(schemas: seq<string>, outcomes: seq<FetchOutcome>)
    requires |schemas| == |outcomes|
  {
    forall j, k ::
      (0 <= j < |schemas| && 0 <= k < |schemas| && schemas[j] == schemas[k] &&
       outcomes[j].Fetched? && outcomes[k].Fetched?) ==> outcomes[j] == outcomes[k]
  }

  // ----- Replay and DiffsBefore -----

  lemma DiffsBeforeShift(diffs: map<string, Marker>, schemas: seq<string>, outcomes: seq<FetchOutcome>, i: int)
    requires |schemas| == |outcomes| && 0 <= i < |schemas|
    ensures DiffsBefore(diffs, schemas, outcomes, i + 1)
         == DiffsBefore(Record(diffs, schemas[0], outcomes[0]), schemas[1..], outcomes[1..], i)
  {
    assert schemas[..i + 1][1..] == schemas[1..][..i];
    assert outcomes[..i + 1][1..] == outcomes[1..][..i];
  }

  lemma ReportsAtShift(diffs: map<string, Marker>, schemas: seq<string>, outcomes: seq<FetchOutcome>, i: int)
    requires |schemas| == |outcomes| && 0 <= i < |schemas| - 1
    ensures ReportsAt(diffs, schemas, outcomes, i + 1)
        <==> ReportsAt(Record(diffs, schemas[0], outcomes[0]), schemas[1..], outcomes[1..], i)
  {
    DiffsBeforeShift(diffs, schemas, outcomes, i);
    assert schemas[1..][i] == schemas[i + 1] && outcomes[1..][i] == outcomes[i + 1];
  }

  /** The visit at position `i` turns the state before it into the state after it. */
  lemma {:induction false} DiffsBeforeStep(diffs: map<string, Marker>, schemas: seq<string>, outcomes: seq<FetchOutcome>, i: int)
    requires |schemas| == |outcomes| && 0 <= i < |schemas|
    ensures DiffsBefore(diffs, schemas, outcomes, i + 1)
         == Record(DiffsBefore(diffs, schemas, outcomes, i), schemas[i], outcomes[i])
    decreases i
  {
    DiffsBeforeShift(diffs, schemas, outcomes, i);
    if i == 0 {
      assert schemas[..0] == [] && outcomes[..0] == [];
    } else {
      var recorded := Record(diffs, schemas[0], outcomes[0]);
      DiffsBeforeStep(recorded, schemas[1..], outcomes[1..], i - 1);
      DiffsBeforeShift(diffs, schemas, outcomes, i - 1);
    }
  }

  /** A tenant with no successful fetch among the visits keeps its entry. */
  lemma {:induction false} ReplayKeeps(diffs: map<string, Marker>, schemas: seq<string>, outcomes: seq<FetchOutcome>, schema: string)
    requires |schemas| == |outcomes|
    requires forall j :: 0 <= j < |schemas| && schemas[j] == schema ==> !outcomes[j].Fetched?
    ensures SameEntry(Replay(diffs, schemas, outcomes), diffs, schema)
    decreases |schemas|
  {
    if schemas != [] {
      var recorded := Record(diffs, schemas[0], outcomes[0]);
      assert SameEntry(recorded, diffs, schema);
      assert forall j :: 0 <= j < |schemas| - 1 ==> schemas[1..][j] == schemas[j + 1] && outcomes[1..][j] == outcomes[j + 1];
      ReplayKeeps(recorded, schemas[1..], outcomes[1..], schema);
    }
  }

  /** A tenant whose successful fetches all report `ts`, and which either held
      `ts` already or is fetched at least once, holds `ts` afterwards. */
  lemma {:induction false} ReplayHolds(diffs: map<string, Marker>, schemas: seq<string>, outcomes: seq<FetchOutcome>, schema: string, ts: Marker)
    requires |schemas| == |outcomes|
    requires forall j :: 0 <= j < |schemas| && schemas[j] == schema && outcomes[j].Fetched? ==> outcomes[j].ts == ts
    requires Holds(diffs, schema, ts) || exists j :: 0 <= j < |schemas| && schemas[j] == schema && outcomes[j].Fetched?
    ensures Holds(Replay(diffs, schemas, outcomes), schema, ts)
    decreases |schemas|
  {
    if schemas == [] {
    } else {
      var recorded := Record(diffs, schemas[0], outcomes[0]);
      var fetchedHere := schemas[0] == schema && outcomes[0].Fetched?;
      assert forall j :: 0 <= j < |schemas| - 1 ==> schemas[1..][j] == schemas[j + 1] && outcomes[1..][j] == outcomes[j + 1];
      if Holds(diffs, schema, ts) || fetchedHere {
        assert Holds(recorded, schema, ts);
      } else {
        var j :| 0 <= j < |schemas| && schemas[j] == schema && outcomes[j].Fetched?;
        assert j != 0;
        assert schemas[1..][j - 1] == schema && outcomes[1..][j - 1].Fetched?;
      }
      ReplayHolds(recorded, schemas[1..], outcomes[1..], schema, ts);
    }
  }

  // ----- Scan against the visit-by-visit reading -----

  /** `schedule_changed` returns true exactly when some visit reports; it then
      stops at the first such visit, having recorded every visit up to and
      including it, and otherwise it has recorded every visit. */
  lemma {:induction false} ScanStopsAtFirstReport(diffs: map<string, Marker>, schemas: seq<string>, outcomes: seq<FetchOutcome>)
    requires |schemas| == |outcomes|
    ensures Scan(diffs, schemas, outcomes).changed <==> exists i :: 0 <= i < |schemas| && ReportsAt(diffs, schemas, outcomes, i)
    ensures forall i :: 0 <= i < |schemas| && ReportsAt(diffs, schemas, outcomes, i) && Reached(diffs, schemas, outcomes, i) ==>
              Scan(diffs, schemas, outcomes).diffs == DiffsBefore(diffs, schemas, outcomes, i + 1)
    ensures !Scan(diffs, schemas, outcomes).changed ==> Scan(diffs, schemas, outcomes).diffs == Replay(diffs, schemas, outcomes)
    decreases |schemas|
  {
    if schemas != [] {
      var recorded := Record(diffs, schemas[0], outcomes[0]);
      var rest, restOut := schemas[1..], outcomes[1..];
      assert DiffsBefore(diffs, schemas, outcomes, 0) == diffs by {
        assert schemas[..0] == [] && outcomes[..0] == [];
      }
      DiffsBeforeShift(diffs, schemas, outcomes, 0);
      assert DiffsBefore(diffs, schemas, outcomes, 1) == recorded;
      ScanStopsAtFirstReport(recorded, rest, restOut);
      forall i | 0 <= i < |schemas| - 1
        ensures ReportsAt(diffs, schemas, outcomes, i + 1) <==> ReportsAt(recorded, rest, restOut, i)
        ensures DiffsBefore(diffs, schemas, outcomes, i + 2) == DiffsBefore(recorded, rest, restOut, i + 1)
      {
        ReportsAtShift(diffs, schemas, outcomes, i);
        DiffsBeforeShift(diffs, schemas, outcomes, i + 1);
      }
      if ReportsAt(diffs, schemas, outcomes, 0) {
        assert Scan(diffs, schemas, outcomes) == ScanResult(true, recorded);
      } else {
        assert Scan(diffs, schemas, outcomes) == Scan(recorded, rest, restOut);
        if exists i :: 0 <= i < |schemas| && ReportsAt(diffs, schemas, outcomes, i) {
          var i :| 0 <= i < |schemas| && ReportsAt(diffs, schemas, outcomes, i);
          assert ReportsAt(recorded, rest, restOut, i - 1);
        }
        forall i | 0 <= i < |schemas| && ReportsAt(diffs, schemas, outcomes, i) && Reached(diffs, schemas, outcomes, i)
          ensures Scan(diffs, schemas, outcomes).diffs == DiffsBefore(diffs, schemas, outcomes, i + 1)
        {
          assert i > 0;
          assert ReportsAt(recorded, rest, restOut, i - 1);
          assert Reached(recorded, rest, restOut, i - 1) by {
            forall j | 0 <= j < i - 1 ensures !ReportsAt(recorded, rest, restOut, j) {
              assert !ReportsAt(diffs, schemas, outcomes, j + 1);
            }
          }
        }
      }
    }
  }

  /** The tenant at which the call stops holds the marker just fetched for it. */
  lemma ScanRecordsStoppingTenant(diffs: map<string, Marker>, schemas: seq<string>, outcomes: seq<FetchOutcome>, i: int)
    requires |schemas| == |outcomes| && 0 <= i < |schemas|
    requires ReportsAt(diffs, schemas, outcomes, i) && Reached(diffs, schemas, outcomes, i)
    ensures Scan(diffs, schemas, outcomes).changed
    ensures Holds(Scan(diffs, schemas, outcomes).diffs, schemas[i], outcomes[i].ts)
  {
    ScanStopsAtFirstReport(diffs, schemas, outcomes);
    DiffsBeforeStep(diffs, schemas, outcomes, i);
  }

  /** A tenant not visited before the call stops keeps its entry. */
  lemma ScanLeavesUnvisitedAlone(diffs: map<string, Marker>, schemas: seq<string>, outcomes: seq<FetchOutcome>, i: int, schema: string)
    requires |schemas| == |outcomes| && 0 <= i < |schemas|
    requires ReportsAt(diffs, schemas, outcomes, i) && Reached(diffs, schemas, outcomes, i)
    requires schema !in schemas[..i + 1]
    ensures SameEntry(Scan(diffs, schemas, outcomes).diffs, diffs, schema)
  {
    ScanStopsAtFirstReport(diffs, schemas, outcomes);
    assert forall j :: 0 <= j < i + 1 ==> schemas[..i + 1][j] == schemas[j];
    ReplayKeeps(diffs, schemas[..i + 1], outcomes[..i + 1], schema);
  }

  /** The call's `diffs` is the state after some prefix of the visits, and
      that prefix covers every visit the loop reaches. */
  lemma ScanVisitsPrefix(diffs: map<string, Marker>, schemas: seq<string>, outcomes: seq<FetchOutcome>) returns (m: int)
    requires |schemas| == |outcomes|
    ensures 0 <= m <= |schemas|
    ensures Scan(diffs, schemas, outcomes).diffs == Replay(diffs, schemas[..m], outcomes[..m])
    ensures forall j :: 0 <= j < |schemas| && Reached(diffs, schemas, outcomes, j) ==> j < m
  {
    ScanStopsAtFirstReport(diffs, schemas, outcomes);
    if Scan(diffs, schemas, outcomes).changed {
      var k :| 0 <= k < |schemas| && ReportsAt(diffs, schemas, outcomes, k);
      var i := FirstReportBefore(diffs, schemas, outcomes, k);
      m := i + 1;
    } else {
      m := |schemas|;
      assert schemas[..m] == schemas && outcomes[..m] == outcomes;
    }
  }

  /** Some visit at or before a reporting one is the first to report. */
  lemma {:induction false} FirstReportBefore(diffs: map<string, Marker>, schemas: seq<string>, outcomes: seq<FetchOutcome>, k: int) returns (i: int)
    requires |schemas| == |outcomes| && 0 <= k < |schemas|
    requires ReportsAt(diffs, schemas, outcomes, k)
    ensures 0 <= i <= k && ReportsAt(diffs, schemas, outcomes, i) && Reached(diffs, schemas, outcomes, i)
    decreases k
  {
    if Reached(diffs, schemas, outcomes, k) {
      i := k;
    } else {
      var j :| 0 <= j < k && ReportsAt(diffs, schemas, outcomes, j);
      i := FirstReportBefore(diffs, schemas, outcomes, j);
    }
  }

  /** A tenant whose every fetch fails (interface or database error) keeps its
      entry, so a change pending in its store is still reported later. */
  lemma FailedTenantKeepsMarker(diffs: map<string, Marker>, schemas: seq<string>, outcomes: seq<FetchOutcome>, schema: string)
    requires |schemas| == |outcomes|
    requires forall j :: 0 <= j < |schemas| && schemas[j] == schema ==> !outcomes[j].Fetched?
    ensures SameEntry(Scan(diffs, schemas, outcomes).diffs, diffs, schema)
  {
    var m := ScanVisitsPrefix(diffs, schemas, outcomes);
    PrefixAt(schemas, outcomes, m);
    ReplayKeeps(diffs, schemas[..m], outcomes[..m], schema);
  }

  lemma PrefixAt<A, B>(xs: seq<A>, ys: seq<B>, m: int)
    requires 0 <= m <= |xs| && m <= |ys|
    ensures forall k :: 0 <= k < m ==> xs[..m][k] == xs[k] && ys[..m][k] == ys[k]
  {
  }

  /** The first visit of a tenant with nothing recorded never reports. */
  lemma FirstVisitNeverReports(diffs: map<string, Marker>, schemas: seq<string>, outcomes: seq<FetchOutcome>, i: int)
    requires |schemas| == |outcomes| && 0 <= i < |schemas|
    requires LastSeen(diffs, schemas[i]) == None
    requires schemas[i] !in schemas[..i]
    ensures !ReportsAt(diffs, schemas, outcomes, i)
  {
    assert forall j :: 0 <= j < i ==> schemas[..i][j] == schemas[j];
    ReplayKeeps(diffs, schemas[..i], outcomes[..i], schemas[i]);
  }

  /** After a restart `diffs` is empty, and a call reports nothing as long as
      a tenant listed twice (the public schema usually is) yields the same
      marker on both visits: every visit either sees the tenant for the first
      time or compares a marker with itself. */
  lemma FreshStartNeverReports(schemas: seq<string>, outcomes: seq<FetchOutcome>)
    requires |schemas| == |outcomes|
    requires ConsistentFetches(schemas, outcomes)
    ensures !Scan(map[], schemas, outcomes).changed
  {
    ScanStopsAtFirstReport(map[], schemas, outcomes);
    forall i | 0 <= i < |schemas| ensures !ReportsAt(map[], schemas, outcomes, i) {
      var schema := schemas[i];
      PrefixAt(schemas, outcomes, i);
      if exists j :: 0 <= j < i && schemas[j] == schema && outcomes[j].Fetched? {
        if outcomes[i].Fetched? {
          ReplayHolds(map[], schemas[..i], outcomes[..i], schema, outcomes[i].ts);
        }
      } else {
        ReplayKeeps(map[], schemas[..i], outcomes[..i], schema);
      }
    }
  }

  /** A change is reported once: calling again with no store edit in between
      (a fetch may now fail, but one that succeeds returns the same marker)
      reports nothing at any tenant the first call reached. */
  lemma NoReReport(diffs: map<string, Marker>, schemas: seq<string>, outcomes: seq<FetchOutcome>, again: seq<FetchOutcome>)
    requires |schemas| == |outcomes| == |again|
    requires ConsistentFetches(schemas, outcomes)
    requires forall j :: 0 <= j < |schemas| && again[j].Fetched? ==> again[j] == outcomes[j]
    ensures forall j :: 0 <= j < |schemas| && Reached(diffs, schemas, outcomes, j) ==>
              !ReportsAt(Scan(diffs, schemas, outcomes).diffs, schemas, again, j)
  {
    var first := Scan(diffs, schemas, outcomes);
    var m := ScanVisitsPrefix(diffs, schemas, outcomes);
    PrefixAt(schemas, outcomes, m);
    forall j | 0 <= j < |schemas| && Reached(diffs, schemas, outcomes, j)
      ensures !ReportsAt(first.diffs, schemas, again, j)
    {
      if again[j].Fetched? {
        var schema, ts := schemas[j], outcomes[j].ts;
        assert schemas[..m][j] == schema && outcomes[..m][j].Fetched?;
        ReplayHolds(diffs, schemas[..m], outcomes[..m], schema, ts);
        PrefixAt(schemas, again, j);
        ReplayHolds(first.diffs, schemas[..j], again[..j], schema, ts);
      }
    }
  }

  /** In particular, a call that reported nothing, repeated with no store
      edit, reports nothing. */
  lemma QuietCallStaysQuiet(diffs: map<string, Marker>, schemas: seq<string>, outcomes: seq<FetchOutcome>, again: seq<FetchOutcome>)
    requires |schemas| == |outcomes| == |again|
    requires ConsistentFetches(schemas, outcomes)
    requires forall j :: 0 <= j < |schemas| && again[j].Fetched? ==> again[j] == outcomes[j]
    requires !Scan(diffs, schemas, outcomes).changed
    ensures !Scan(Scan(diffs, schemas, outcomes).diffs, schemas, again).changed
  {
    ScanStopsAtFirstReport(diffs, schemas, outcomes);
    NoReReport(diffs, schemas, outcomes, again);
    ScanStopsAtFirstReport(Scan(diffs, schemas, outcomes).diffs, schemas, again);
  }
}
