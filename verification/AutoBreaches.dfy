/** Breaches opened and closed from a host's status (src/lib/auto-breaches.ts). Evidence text is
    the record it parses to; instants are milliseconds; lower-casing is a parameter. */
module AutoBreaches {
  import opened Common
  import opened IncidentTimeline
  import Sorting

  datatype BreachSeverity = InfoBreach | WarnBreach | CriticalBreach
  datatype BreachState = Open | Fixed | Ignored

  /** The part of a signal that evidence records. */
  datatype Finding = Finding(code: string, severity: Severity, title: string, detail: Option<string>, source: Source)

  datatype Evidence = Evidence(key: string, snapshotId: string, snapshotTs: int, lastObservedTs: int,
                               resolvedTs: Option<int>, finding: Finding)

  datatype Candidate = Candidate(key: string, code: string, title: string, detail: Option<string>,
                                 severity: BreachSeverity, signalSeverity: Severity, evidence: Evidence)

  /** evidence is None for a breach whose evidence is not that of an automatic one. */
  datatype Row = Row(hostId: string, code: Option<string>, title: string, detail: Option<string>,
                     severity: BreachSeverity, state: BreachState, openedTs: int, fixedTs: Option<int>,
                     evidence: Option<Evidence>)

  datatype Snapshot = Snapshot(id: string, ts: int)

  /** signalToBreachSeverity */
  function BreachSeverityOf(s: Severity): BreachSeverity {
    match s case Critical => CriticalBreach case High => WarnBreach case Medium => WarnBreach
            case Low => InfoBreach case Info => InfoBreach
  }

  /** shouldPromoteSignalToBreach */
  predicate Promoted(s: Signal) {
    s.code in {"config_tamper", "firewall_drift", "account_drift", "unexpected_public_ports"}
    || (s.source == FromAlert && s.severity == Critical)
  }

  /** buildAutoBreachKey */
  function BreachKey(s: Signal, lower: string -> string): string {
    if s.code == "alert_generic" then "alert_generic:" + lower(Trim(s.title)) else s.code
  }

  function CandidateOf(s: Signal, lower: string -> string, snap: Snapshot): Candidate {
    var key := BreachKey(s, lower);
    Candidate(key, s.code, s.title, s.detail, BreachSeverityOf(s.severity), s.severity,
              Evidence(key, snap.id, snap.ts, snap.ts, None,
                       Finding(s.code, s.severity, s.title, s.detail, s.source)))
  }

  // ---------------------------------------------------------------- candidates

  /** Where the key is in the insertion-ordered map, or its size. */
  function Position(cands: seq<Candidate>, key: string): (p: nat)
    ensures p <= |cands| && (p < |cands| ==> cands[p].key == key)
    ensures forall q | 0 <= q < p :: cands[q].key != key
  {
    if cands == [] || cands[0].key == key then 0 else 1 + Position(cands[1..], key)
  }

  function Put(cands: seq<Candidate>, c: Candidate): seq<Candidate> {
    var p := Position(cands, c.key);
    if p == |cands| then cands + [c]
    else if Weight(c.signalSeverity) > Weight(cands[p].signalSeverity) then cands[p := c]
    else cands
  }

  /** The candidates of the promoted ones among the first n signals, in signal order. */
  function Offers(signals: seq<Signal>, n: nat, lower: string -> string, snap: Snapshot): seq<Candidate>
    requires n <= |signals|
  {
    if n == 0 then []
    else
      Offers(signals, n - 1, lower, snap)
      + (if Promoted(signals[n - 1]) then [CandidateOf(signals[n - 1], lower, snap)] else [])
  }

  function Collected(offers: seq<Candidate>): seq<Candidate> {
    if offers == [] then [] else Put(Collected(offers[..|offers| - 1]), offers[|offers| - 1])
  }

  /** Among the offers with this key, the first of the highest severity. */
  function Strongest(offers: seq<Candidate>, key: string): (r: Option<nat>)
    ensures r.Some? ==>
              && r.value < |offers| && offers[r.value].key == key
              && forall j | 0 <= j < |offers| && offers[j].key == key ::
                   && Weight(offers[j].signalSeverity) <= Weight(offers[r.value].signalSeverity)
                   && (j < r.value ==> Weight(offers[j].signalSeverity) < Weight(offers[r.value].signalSeverity))
    ensures r.None? ==> forall j | 0 <= j < |offers| :: offers[j].key != key
  {
    if offers == [] then None
    else
      var n := |offers| - 1;
      var before := Strongest(offers[..n], key);
      if offers[n].key != key then before
      else if before.Some? && Weight(offers[n].signalSeverity) <= Weight(offers[before.value].signalSeverity) then
        before
      else Some(n)
  }

  ghost predicate DistinctKeys(cands: seq<Candidate>) {
    forall a, b | 0 <= a < b < |cands| :: cands[a].key != cands[b].key
  }

  predicate Has(cands: seq<Candidate>, key: string) {
    Position(cands, key) < |cands|
  }

  /** One candidate per offered key: the first of the most severe offers with that key. */
  lemma {:induction false} CandidatesAreStrongest(offers: seq<Candidate>)
    ensures DistinctKeys(Collected(offers))
    ensures forall key :: Has(Collected(offers), key) <==> Strongest(offers, key).Some?
    ensures forall c | c in Collected(offers) ::
              var best := Strongest(offers, c.key); best.Some? && c == offers[best.value]
  {
    if offers != [] {
      var before := offers[..|offers| - 1];
      CandidatesAreStrongest(before);
      PutShape(Collected(before), offers[|offers| - 1]);
    }
  }

  lemma PutShape(cands: seq<Candidate>, c: Candidate)
    requires DistinctKeys(cands)
    ensures var r := Put(cands, c);
            && DistinctKeys(r)
            && (forall key :: Has(r, key) <==> Has(cands, key) || key == c.key)
            && forall d | d in r ::
                 || (d in cands && (d.key == c.key ==> Weight(c.signalSeverity) <= Weight(d.signalSeverity)))
                 || (d == c && forall e | e in cands && e.key == c.key ::
                                 Weight(c.signalSeverity) > Weight(e.signalSeverity))
  {
    var r := Put(cands, c);
    assert r[Position(cands, c.key)].key == c.key;
    forall key ensures Has(r, key) <==> Has(cands, key) || key == c.key {
      var p, q := Position(cands, key), Position(r, key);
      if p < |cands| { assert r[p].key == key; }
      if q < |r| && key != c.key { assert cands[q].key == key; }
    }
  }

  lemma OffersStep(signals: seq<Signal>, n: nat, lower: string -> string, snap: Snapshot)
    requires n < |signals|
    ensures Offers(signals, n + 1, lower, snap)
         == Offers(signals, n, lower, snap)
            + (if Promoted(signals[n]) then [CandidateOf(signals[n], lower, snap)] else [])
    ensures !Promoted(signals[n]) ==> Offers(signals, n + 1, lower, snap) == Offers(signals, n, lower, snap)
  {
  }

  lemma CollectedStep(offers: seq<Candidate>, c: Candidate)
    ensures Collected(offers + [c]) == Put(Collected(offers), c)
  {
    assert (offers + [c])[..|offers|] == offers;
  }

  /** collectAutoBreachCandidates, from the extracted signals on. */
  method CollectAutoBreachCandidates(signals: seq<Signal>, lower: string -> string, snap: Snapshot)
    returns (byKey: seq<Candidate>)
    ensures var offers := Offers(signals, |signals|, lower, snap); byKey == Collected(offers)
  {
    byKey := [];
    for n := 0 to |signals|
      invariant var offers := Offers(signals, n, lower, snap); byKey == Collected(offers)
    {
      ghost var offers := Offers(signals, n, lower, snap);
      OffersStep(signals, n, lower, snap);
      if !Promoted(signals[n]) { continue; }
      var candidate := CandidateOf(signals[n], lower, snap);
      CollectedStep(offers, candidate);
      var existing := Position(byKey, candidate.key);
      if existing == |byKey| {
        byKey := byKey + [candidate];
      } else if Weight(candidate.signalSeverity) > Weight(byKey[existing].signalSeverity) {
        byKey := byKey[existing := candidate];
      }
    }
  }

  // ---------------------------------------------------------------- reconciliation

  /** parseAutoBreachEvidence: the key of a breach this module manages. */
  function ManagedKey(r: Row): Option<string> {
    if r.evidence.Some? && !AllSpace(r.evidence.value.key) then Some(r.evidence.value.key) else None
  }

  predicate In(r: Row, host: string, state: BreachState, key: string) {
    r.hostId == host && r.state == state && ManagedKey(r) == Some(key)
  }

  predicate Exists(rows: seq<Row>, host: string, state: BreachState, key: string) {
    exists i | 0 <= i < |rows| :: In(rows[i], host, state, key)
  }

  /** The most recently opened of the open breaches with this key. */
  function Newest(rows: seq<Row>, host: string, key: string): (r: Option<nat>)
    ensures r.Some? ==>
              && r.value < |rows| && In(rows[r.value], host, Open, key)
              && forall j | 0 <= j < |rows| && In(rows[j], host, Open, key) ::
                   && rows[j].openedTs <= rows[r.value].openedTs
                   && (j < r.value ==> rows[j].openedTs < rows[r.value].openedTs)
    ensures r.None? ==> !Exists(rows, host, Open, key)
  {
    if rows == [] then None
    else
      var n := |rows| - 1;
      var before := Newest(rows[..n], host, key);
      if !In(rows[n], host, Open, key) then before
      else if before.Some? && rows[n].openedTs <= rows[before.value].openedTs then before
      else Some(n)
  }

  /** The update of a breach that is still observed. */
  function Refreshed(r: Row, c: Candidate): Row {
    if r.code != Some(c.code) || r.title != c.title || r.detail != c.detail || r.severity != c.severity then
      r.(code := Some(c.code), title := c.title, detail := c.detail, severity := c.severity,
         evidence := Some(c.evidence))
    else r
  }

  /** The update of a breach that is no longer observed; its evidence takes over the detail of the
      row when it has none of its own. */
  function Resolved(r: Row, ts: int): Row
    requires r.evidence.Some?
  {
    var e := r.evidence.value;
    var detail := if e.finding.detail.Some? then e.finding.detail else r.detail;
    r.(state := Fixed, fixedTs := Some(ts),
       evidence := Some(e.(lastObservedTs := e.snapshotTs, resolvedTs := Some(ts),
                           finding := e.finding.(detail := detail))))
  }

  function Created(c: Candidate, host: string, ts: int): Row {
    Row(host, Some(c.code), c.title, c.detail, c.severity, Open, ts, None, Some(c.evidence))
  }

  /** What reconciliation makes of row i. */
  function NextRow(rows: seq<Row>, i: nat, host: string, cands: seq<Candidate>, ts: int): Row
    requires i < |rows|
  {
    var r := rows[i];
    if ManagedKey(r).None? then r
    else
      var key := ManagedKey(r).value;
      var p := Position(cands, key);
      if Newest(rows, host, key) != Some(i) then r
      else if p == |cands| then Resolved(r, ts)
      else if Exists(rows, host, Ignored, key) then r
      else Refreshed(r, cands[p])
  }

  predicate Opens(rows: seq<Row>, host: string, key: string) {
    !Exists(rows, host, Ignored, key) && Newest(rows, host, key).None?
  }

  function Openings(rows: seq<Row>, host: string, cands: seq<Candidate>, n: nat, ts: int): (os: seq<Row>)
    requires n <= |cands|
    ensures forall k | 0 <= k < |os| :: os[k].hostId == host && os[k].state == Open && os[k].evidence.Some?
  {
    if n == 0 then []
    else
      Openings(rows, host, cands, n - 1, ts)
      + (if Opens(rows, host, cands[n - 1].key) then [Created(cands[n - 1], host, ts)] else [])
  }

  function Reconciled(rows: seq<Row>, host: string, cands: seq<Candidate>, ts: int): seq<Row> {
    seq(|rows|, (i: nat) requires i < |rows| => NextRow(rows, i, host, cands, ts))
    + Openings(rows, host, cands, |cands|, ts)
  }

  function SuppressedCount(rows: seq<Row>, host: string, cands: seq<Candidate>, n: nat): nat
    requires n <= |cands|
  {
    if n == 0 then 0
    else SuppressedCount(rows, host, cands, n - 1) + (if Exists(rows, host, Ignored, cands[n - 1].key) then 1 else 0)
  }

  /** The candidates that an operator ignores. */
  ghost function SuppressedAt(rows: seq<Row>, host: string, cands: seq<Candidate>, n: nat): set<nat>
    requires n <= |cands|
  {
    set k: nat | k < n && Exists(rows, host, Ignored, cands[k].key)
  }

  lemma {:induction false} SuppressedIsSize(rows: seq<Row>, host: string, cands: seq<Candidate>, n: nat)
    requires n <= |cands|
    ensures SuppressedCount(rows, host, cands, n) == |SuppressedAt(rows, host, cands, n)|
  {
    if n == 0 {
      assert SuppressedAt(rows, host, cands, 0) == {};
    } else {
      SuppressedIsSize(rows, host, cands, n - 1);
      var before := SuppressedAt(rows, host, cands, n - 1);
      if Exists(rows, host, Ignored, cands[n - 1].key) {
        assert SuppressedAt(rows, host, cands, n) == before + {n - 1};
      } else {
        assert SuppressedAt(rows, host, cands, n) == before;
      }
    }
  }

  /** Open breaches of a host, managed here or not. */
  function OpenCount(rows: seq<Row>, host: string): nat {
    if rows == [] then 0
    else
      OpenCount(rows[..|rows| - 1], host)
      + (var r := rows[|rows| - 1]; if r.hostId == host && r.state == Open then 1 else 0)
  }

  lemma {:induction false} OpenCountUpdate(rows: seq<Row>, host: string, i: nat, r: Row)
    requires i < |rows| && r.hostId == rows[i].hostId
    ensures OpenCount(rows[i := r], host)
         == OpenCount(rows, host)
            + (if r.hostId == host && r.state == Open then 1 else 0)
            - (if r.hostId == host && rows[i].state == Open then 1 else 0)
  {
    var n := |rows| - 1;
    if i < n {
      OpenCountUpdate(rows[..n], host, i, r);
      assert rows[i := r][..n] == rows[..n][i := r];
    } else {
      assert rows[i := r][..n] == rows[..n];
    }
  }

  lemma OpenCountAppend(rows: seq<Row>, host: string, r: Row)
    ensures OpenCount(rows + [r], host)
         == OpenCount(rows, host) + (if r.hostId == host && r.state == Open then 1 else 0)
  {
    assert (rows + [r])[..|rows|] == rows;
  }

  datatype Entry = Entry(openedTs: int, id: nat)

  /** orderBy openedTs desc, equal instants in creation order */
  predicate NewestOpened(a: Entry, b: Entry) {
    a.openedTs > b.openedTs || (a.openedTs == b.openedTs && a.id <= b.id)
  }

  /** The host's open and ignored breaches among the first n rows. */
  function Entries(rows: seq<Row>, host: string, n: nat): (es: seq<Entry>)
    requires n <= |rows|
    ensures forall e | e in es :: e.id < n && e.openedTs == rows[e.id].openedTs && rows[e.id].hostId == host
    ensures forall i | 0 <= i < n && rows[i].hostId == host && rows[i].state != Fixed ::
              Entry(rows[i].openedTs, i) in es
    ensures forall e | e in es :: rows[e.id].state != Fixed
  {
    if n == 0 then []
    else
      Entries(rows, host, n - 1)
      + (if rows[n - 1].hostId == host && rows[n - 1].state != Fixed then [Entry(rows[n - 1].openedTs, n - 1)] else [])
  }

  /** The query: the host's open and ignored rows, the newest opened first. */
  function Existing(rows: seq<Row>, host: string): seq<Entry> {
    Sorting.Sort(NewestOpened, Entries(rows, host, |rows|))
  }

  ghost predicate IsQuery(rows: seq<Row>, host: string, es: seq<Entry>) {
    && (forall m | 0 <= m < |es| ::
          es[m].id < |rows| && es[m].openedTs == rows[es[m].id].openedTs && rows[es[m].id].state != Fixed
          && rows[es[m].id].hostId == host)
    && (forall i | 0 <= i < |rows| && rows[i].hostId == host && rows[i].state != Fixed ::
          Entry(rows[i].openedTs, i) in es)
    && Sorting.Sorted(NewestOpened, es)
  }

  lemma ExistingIsTheQuery(rows: seq<Row>, host: string)
    ensures IsQuery(rows, host, Existing(rows, host))
  {
    var entries, es := Entries(rows, host, |rows|), Existing(rows, host);
    Sorting.SortSorts(NewestOpened, entries);
    Sorting.SortElements(NewestOpened, entries);
    forall m | 0 <= m < |es|
      ensures es[m].id < |rows| && es[m].openedTs == rows[es[m].id].openedTs && rows[es[m].id].state != Fixed
              && rows[es[m].id].hostId == host
    {
      assert es[m] in entries;
    }
  }

  predicate Refers(rows: seq<Row>, es: seq<Entry>) {
    forall m | 0 <= m < |es| :: es[m].id < |rows|
  }

  /** The first of the first n entries that has this state and key. */
  function FirstIn(rows: seq<Row>, host: string, es: seq<Entry>, n: nat, state: BreachState,
                   key: string): (r: Option<nat>)
    requires n <= |es| && Refers(rows, es)
    ensures r.Some? ==> r.value < n && In(rows[es[r.value].id], host, state, key)
    ensures forall m | 0 <= m < n && In(rows[es[m].id], host, state, key) :: r.Some? && r.value <= m
  {
    if n == 0 then None
    else
      var before := FirstIn(rows, host, es, n - 1, state, key);
      if before.Some? then before else if In(rows[es[n - 1].id], host, state, key) then Some(n - 1) else None
  }

  lemma NewestIs(rows: seq<Row>, host: string, key: string, id: nat)
    requires id < |rows| && In(rows[id], host, Open, key)
    requires forall j | 0 <= j < |rows| && In(rows[j], host, Open, key) ::
               NewestOpened(Entry(rows[id].openedTs, id), Entry(rows[j].openedTs, j))
    ensures Newest(rows, host, key) == Some(id)
  {
    var newest := Newest(rows, host, key);
    if newest.Some? {
      assert NewestOpened(Entry(rows[id].openedTs, id), Entry(rows[newest.value].openedTs, newest.value));
    }
  }

  lemma Listed(rows: seq<Row>, host: string, es: seq<Entry>, state: BreachState, key: string,
               i: nat)
    returns (m: nat)
    requires IsQuery(rows, host, es) && i < |rows| && state != Fixed && In(rows[i], host, state, key)
    ensures m < |es| && es[m] == Entry(rows[i].openedTs, i)
    ensures FirstIn(rows, host, es, |es|, state, key).Some? && FirstIn(rows, host, es, |es|, state, key).value <= m
  {
    m :| 0 <= m < |es| && es[m] == Entry(rows[i].openedTs, i);
    assert In(rows[es[m].id], host, state, key);
  }

  lemma {:induction false} FirstIsNewest(rows: seq<Row>, host: string, es: seq<Entry>, key: string)
    requires IsQuery(rows, host, es)
    ensures var first := FirstIn(rows, host, es, |es|, Open, key);
            Newest(rows, host, key) == if first.Some? then Some(es[first.value].id) else None
  {
    var first := FirstIn(rows, host, es, |es|, Open, key);
    if first.Some? {
      var id := es[first.value].id;
      forall j | 0 <= j < |rows| && In(rows[j], host, Open, key)
        ensures NewestOpened(Entry(rows[id].openedTs, id), Entry(rows[j].openedTs, j))
      {
        var m := Listed(rows, host, es, Open, key, j);
        assert first.value < m ==> NewestOpened(es[first.value], es[m]);
      }
      NewestIs(rows, host, key, id);
    } else if Newest(rows, host, key).Some? {
      var m := Listed(rows, host, es, Open, key, Newest(rows, host, key).value);
    }
  }

  lemma FirstIgnored(rows: seq<Row>, host: string, es: seq<Entry>, key: string)
    requires IsQuery(rows, host, es)
    ensures Exists(rows, host, Ignored, key) <==> FirstIn(rows, host, es, |es|, Ignored, key).Some?
  {
    if Exists(rows, host, Ignored, key) {
      var i :| 0 <= i < |rows| && In(rows[i], host, Ignored, key);
      var m := Listed(rows, host, es, Ignored, key, i);
    }
  }

  /** What the scan has recorded after n entries. */
  ghost predicate Scanned(rows: seq<Row>, host: string, es: seq<Entry>, n: nat, open: map<string, nat>,
                          ignored: set<string>)
    requires n <= |es| && Refers(rows, es)
  {
    forall key :: ScannedFor(rows, host, es, n, open, ignored, key)
  }

  ghost predicate ScannedFor(rows: seq<Row>, host: string, es: seq<Entry>, n: nat,
                             open: map<string, nat>, ignored: set<string>, key: string)
    requires n <= |es| && Refers(rows, es)
  {
    var first := FirstIn(rows, host, es, n, Open, key);
    && (if first.Some? then key in open && open[key] == es[first.value].id else key !in open)
    && (key in ignored <==> FirstIn(rows, host, es, n, Ignored, key).Some?)
  }

  /** One more entry: an ignored key is remembered, and the first open row of a key is. */
  lemma ScannedStep(rows: seq<Row>, host: string, es: seq<Entry>, n: nat, open: map<string, nat>,
                    ignored: set<string>)
    requires n < |es| && IsQuery(rows, host, es) && Scanned(rows, host, es, n, open, ignored)
    ensures var row := rows[es[n].id];
            match ManagedKey(row)
            case None => Scanned(rows, host, es, n + 1, open, ignored)
            case Some(key) =>
              if row.state == Ignored then Scanned(rows, host, es, n + 1, open, ignored + {key})
              else if key in open then Scanned(rows, host, es, n + 1, open, ignored)
              else Scanned(rows, host, es, n + 1, open[key := es[n].id], ignored)
  {
    var row := rows[es[n].id];
    assert row.hostId == host && row.state != Fixed;
    var managed := ManagedKey(row);
    var open', ignored' :=
      if managed.Some? && row.state == Open && managed.value !in open then open[managed.value := es[n].id] else open,
      if managed.Some? && row.state == Ignored then ignored + {managed.value} else ignored;
    var next := n + 1;
    forall key ensures ScannedFor(rows, host, es, next, open', ignored', key) {
      assert ScannedFor(rows, host, es, n, open, ignored, key);
    }
  }

  /** The scan of the existing rows: the newest open breach and the ignored breaches per key. */
  method ReadExisting(rows: seq<Row>, host: string) returns (open: map<string, nat>, ignored: set<string>)
    ensures forall key :: Newest(rows, host, key) == if key in open then Some(open[key]) else None
    ensures forall key :: key in ignored <==> Exists(rows, host, Ignored, key)
  {
    open, ignored := map[], {};
    var existing := Existing(rows, host);
    ExistingIsTheQuery(rows, host);
    for n := 0 to |existing|
      invariant Scanned(rows, host, existing, n, open, ignored)
    {
      ScannedStep(rows, host, existing, n, open, ignored);
      var row := rows[existing[n].id];
      var key := ManagedKey(row);
      if key.None? { continue; }
      if row.state == Ignored {
        ignored := ignored + {key.value};
        continue;
      }
      if key.value !in open {
        open := open[key.value := existing[n].id];
      }
    }
    forall key
      ensures Newest(rows, host, key) == if key in open then Some(open[key]) else None
      ensures key in ignored <==> Exists(rows, host, Ignored, key)
    {
      FirstIsNewest(rows, host, existing, key);
      FirstIgnored(rows, host, existing, key);
      assert ScannedFor(rows, host, existing, |existing|, open, ignored, key);
    }
  }

  datatype Sync = Sync(newlyOpened: nat, fixed: nat, active: nat, suppressed: nat)

  class BreachTable {
    var rows: seq<Row>

    constructor ()
      ensures rows == []
    {
      rows := [];
    }

    /** reconcileAutoBreachesForHost on the collected candidates. */
    method ReconcileAutoBreachesForHost(host: string, candidates: seq<Candidate>, ts: int) returns (sync: Sync)
      requires DistinctKeys(candidates)
      modifies this
      ensures rows == Reconciled(old(rows), host, candidates, ts)
      ensures sync.newlyOpened == |Openings(old(rows), host, candidates, |candidates|, ts)|
      ensures sync.active == |candidates|
      ensures sync.suppressed == SuppressedCount(old(rows), host, candidates, |candidates|)
      ensures OpenCount(rows, host) == OpenCount(old(rows), host) + sync.newlyOpened - sync.fixed
    {
      ghost var start := rows;
      var openAutoBreaches, ignored := ReadExisting(rows, host);
      var newlyOpened, suppressed;
      openAutoBreaches, newlyOpened, suppressed := SyncCandidates(host, candidates, ts, openAutoBreaches, ignored);
      ClosingStarts(start, host, candidates, ts, openAutoBreaches, rows);
      var fixed := CloseUnobserved(host, ts, openAutoBreaches, start, candidates);
      assert rows == Reconciled(start, host, candidates, ts);
      sync := Sync(newlyOpened, fixed, |candidates|, suppressed);
    }

    /** The loop over the candidates. */
    method SyncCandidates(host: string, candidates: seq<Candidate>, ts: int, found: map<string, nat>,
                          ignored: set<string>)
      returns (openAutoBreaches: map<string, nat>, newlyOpened: nat, suppressed: nat)
      requires DistinctKeys(candidates) && Remaining(rows, host, candidates, 0, found)
      requires forall key :: key in ignored <==> Exists(rows, host, Ignored, key)
      modifies this
      ensures Halfway(old(rows), host, candidates, |candidates|, ts, rows)
      ensures Remaining(old(rows), host, candidates, |candidates|, openAutoBreaches)
      ensures newlyOpened == |Openings(old(rows), host, candidates, |candidates|, ts)|
      ensures suppressed == SuppressedCount(old(rows), host, candidates, |candidates|)
      ensures OpenCount(rows, host) == OpenCount(old(rows), host) + newlyOpened
    {
      ghost var start := rows;
      openAutoBreaches, newlyOpened, suppressed := found, 0, 0;
      for n := 0 to |candidates|
        invariant Halfway(start, host, candidates, n, ts, rows)
        invariant Remaining(start, host, candidates, n, openAutoBreaches)
        invariant newlyOpened == |rows| - |start|
        invariant suppressed == SuppressedCount(start, host, candidates, n)
        invariant OpenCount(rows, host) == OpenCount(start, host) + newlyOpened
      {
        var candidate := candidates[n];
        HalfwayStep(start, host, candidates, n, ts, rows);
        RemainingStep(start, host, candidates, n, openAutoBreaches);
        var more, hidden;
        openAutoBreaches, more, hidden := SyncOne(host, candidate, ts, openAutoBreaches, ignored);
        newlyOpened, suppressed := newlyOpened + more, suppressed + hidden;
      }
    }

    /** One candidate: suppressed, refreshed in place, or opened. */
    method SyncOne(host: string, candidate: Candidate, ts: int, open: map<string, nat>, ignored: set<string>)
      returns (openAutoBreaches: map<string, nat>, newlyOpened: nat, suppressed: nat)
      requires candidate.key in open && candidate.key !in ignored ==>
                 open[candidate.key] < |rows| && In(rows[open[candidate.key]], host, Open, candidate.key)
      modifies this
      ensures if candidate.key in ignored then
                rows == old(rows) && openAutoBreaches == open - {candidate.key} && newlyOpened == 0 && suppressed == 1
              else if candidate.key in open then
                var id := open[candidate.key];
                && rows == old(rows)[id := Refreshed(old(rows)[id], candidate)]
                && openAutoBreaches == open - {candidate.key} && newlyOpened == 0 && suppressed == 0
              else
                && rows == old(rows) + [Created(candidate, host, ts)]
                && openAutoBreaches == open && newlyOpened == 1 && suppressed == 0
      ensures OpenCount(rows, host) == OpenCount(old(rows), host) + newlyOpened
    {
      openAutoBreaches, newlyOpened, suppressed := open, 0, 0;
      if candidate.key in ignored {
        suppressed := 1;
        openAutoBreaches := openAutoBreaches - {candidate.key};
        return;
      }
      if candidate.key in openAutoBreaches {
        var id := openAutoBreaches[candidate.key];
        openAutoBreaches := openAutoBreaches - {candidate.key};
        OpenCountUpdate(rows, host, id, Refreshed(rows[id], candidate));
        rows := rows[id := Refreshed(rows[id], candidate)];
        return;
      }
      newlyOpened := 1;
      OpenCountAppend(rows, host, Created(candidate, host, ts));
      rows := rows + [Created(candidate, host, ts)];
    }

    /** The loop over what is left in the map. */
    method CloseUnobserved(host: string, ts: int, found: map<string, nat>, ghost start: seq<Row>,
                           ghost candidates: seq<Candidate>)
      returns (fixed: nat)
      requires Closing(start, host, candidates, ts, found, rows)
      modifies this
      ensures Closing(start, host, candidates, ts, map[], rows)
      ensures OpenCount(rows, host) == OpenCount(old(rows), host) - fixed
    {
      fixed := 0;
      var openAutoBreaches := found;
      while openAutoBreaches != map[]
        invariant Closing(start, host, candidates, ts, openAutoBreaches, rows)
        invariant OpenCount(rows, host) == OpenCount(old(rows), host) - fixed
        decreases |openAutoBreaches|
      {
        var key :| key in openAutoBreaches;
        var id := openAutoBreaches[key];
        ClosingStep(start, host, candidates, ts, openAutoBreaches, rows, key);
        openAutoBreaches := openAutoBreaches - {key};
        fixed := fixed + 1;
        OpenCountUpdate(rows, host, id, Resolved(rows[id], ts));
        rows := rows[id := Resolved(rows[id], ts)];
      }
    }
  }

  /** The map once the keys of the first n candidates have been taken out of it. */
  ghost predicate Remaining(start: seq<Row>, host: string, cands: seq<Candidate>, n: nat, open: map<string, nat>) {
    forall key :: RemainingFor(start, host, cands, n, open, key)
  }

  predicate RemainingFor(start: seq<Row>, host: string, cands: seq<Candidate>, n: nat, open: map<string, nat>,
                         key: string) {
    (if Position(cands, key) >= n then Newest(start, host, key) else None)
      == if key in open then Some(open[key]) else None
  }

  lemma RemainingStep(start: seq<Row>, host: string, cands: seq<Candidate>, n: nat,
                      open: map<string, nat>)
    requires DistinctKeys(cands) && n < |cands| && Remaining(start, host, cands, n, open)
    ensures RemainingFor(start, host, cands, n, open, cands[n].key) && Position(cands, cands[n].key) == n
    ensures Remaining(start, host, cands, n + 1, open - {cands[n].key})
    ensures cands[n].key !in open ==> Remaining(start, host, cands, n + 1, open)
  {
    PositionOf(cands, n);
    var open' := open - {cands[n].key};
    var next := n + 1;
    forall key ensures RemainingFor(start, host, cands, next, open', key) {
      assert RemainingFor(start, host, cands, n, open, key);
    }
    assert cands[n].key !in open ==> open' == open;
  }

  /** The table while the rows still in the map are waiting to be closed. */
  ghost predicate Closing(start: seq<Row>, host: string, cands: seq<Candidate>, ts: int, open: map<string, nat>,
                          rows: seq<Row>) {
    && |rows| >= |start| && rows[|start|..] == Openings(start, host, cands, |cands|, ts)
    && (forall key | key in open :: Newest(start, host, key) == Some(open[key]) && !Has(cands, key))
    && forall i | 0 <= i < |start| ::
         rows[i] == if ManagedKey(start[i]).Some? && ManagedKey(start[i]).value in open
                    then start[i] else NextRow(start, i, host, cands, ts)
  }

  lemma ClosingStarts(start: seq<Row>, host: string, cands: seq<Candidate>, ts: int,
                      open: map<string, nat>, rows: seq<Row>)
    requires Halfway(start, host, cands, |cands|, ts, rows) && Remaining(start, host, cands, |cands|, open)
    ensures Closing(start, host, cands, ts, open, rows)
  {
    forall key | key in open ensures Newest(start, host, key) == Some(open[key]) && !Has(cands, key) {
      assert RemainingFor(start, host, cands, |cands|, open, key);
    }
    forall i | 0 <= i < |start| && ManagedKey(start[i]).Some? && ManagedKey(start[i]).value !in open
      ensures rows[i] == NextRow(start, i, host, cands, ts)
    {
      assert RemainingFor(start, host, cands, |cands|, open, ManagedKey(start[i]).value);
    }
  }

  lemma ClosingStep(start: seq<Row>, host: string, cands: seq<Candidate>, ts: int,
                    open: map<string, nat>, rows: seq<Row>, key: string)
    requires Closing(start, host, cands, ts, open, rows) && key in open
    ensures var id := open[key];
            && id < |start| && rows[id] == start[id] && In(rows[id], host, Open, key)
            && Closing(start, host, cands, ts, open - {key}, rows[id := Resolved(rows[id], ts)])
  {
    var id := open[key];
    var rows' := rows[id := Resolved(rows[id], ts)];
    assert rows'[|start|..] == rows[|start|..];
  }

  lemma PositionOf(cands: seq<Candidate>, n: nat)
    requires DistinctKeys(cands) && n < |cands|
    ensures Position(cands, cands[n].key) == n
    ensures forall key | key != cands[n].key :: Position(cands, key) != n
  {
  }

  /** The table once the first n candidates have been dealt with. */
  ghost predicate Halfway(start: seq<Row>, host: string, cands: seq<Candidate>, n: nat, ts: int, rows: seq<Row>) {
    && n <= |cands| && |rows| >= |start|
    && rows[|start|..] == Openings(start, host, cands, n, ts)
    && forall i | 0 <= i < |start| ::
         rows[i] == if ManagedKey(start[i]).Some? && Position(cands, ManagedKey(start[i]).value) < n
                    then NextRow(start, i, host, cands, ts) else start[i]
  }

  /** One more candidate: suppressed, refreshed in place, or opened. */
  lemma HalfwayStep(start: seq<Row>, host: string, cands: seq<Candidate>, n: nat, ts: int,
                    rows: seq<Row>)
    requires Halfway(start, host, cands, n, ts, rows) && n < |cands| && DistinctKeys(cands)
    ensures var c := cands[n];
            var newest := Newest(start, host, c.key);
            if Exists(start, host, Ignored, c.key) then Halfway(start, host, cands, n + 1, ts, rows)
            else if newest.Some? then
              newest.value < |rows| && rows[newest.value] == start[newest.value]
              && Halfway(start, host, cands, n + 1, ts, rows[newest.value := Refreshed(rows[newest.value], c)])
            else Halfway(start, host, cands, n + 1, ts, rows + [Created(c, host, ts)])
  {
    PositionOf(cands, n);
    var c := cands[n];
    var newest := Newest(start, host, c.key);
    if !Exists(start, host, Ignored, c.key) {
      if newest.Some? {
        var rows' := rows[newest.value := Refreshed(rows[newest.value], c)];
        assert rows'[|start|..] == rows[|start|..];
      } else {
        var rows' := rows + [Created(c, host, ts)];
        assert rows'[|start|..] == rows[|start|..] + [Created(c, host, ts)];
      }
    }
  }

  // ---------------------------------------------------------------- what reconciliation achieves

  ghost predicate WellFormed(cands: seq<Candidate>) {
    DistinctKeys(cands) && forall c | c in cands :: c.evidence.key == c.key
  }

  lemma {:induction false} OffersNameTheirKey(signals: seq<Signal>, n: nat, lower: string -> string, snap: Snapshot)
    requires n <= |signals|
    ensures forall c | c in Offers(signals, n, lower, snap) :: c.evidence.key == c.key
  {
    if n > 0 { OffersNameTheirKey(signals, n - 1, lower, snap); }
  }

  lemma CollectedAreWellFormed(signals: seq<Signal>, lower: string -> string, snap: Snapshot)
    ensures WellFormed(Collected(Offers(signals, |signals|, lower, snap)))
  {
    OffersNameTheirKey(signals, |signals|, lower, snap);
    CandidatesAreStrongest(Offers(signals, |signals|, lower, snap));
  }

  /** Two open breaches with the same key. */
  predicate Duplicate(rows: seq<Row>, host: string, key: string) {
    exists i, j | 0 <= i < j < |rows| :: In(rows[i], host, Open, key) && In(rows[j], host, Open, key)
  }

  /** Candidate p has opened this row. */
  predicate OpenedBy(rows: seq<Row>, host: string, cands: seq<Candidate>, ts: int, p: nat, r: Row) {
    p < |cands| && Opens(rows, host, cands[p].key) && r == Created(cands[p], host, ts)
  }

  /** The candidate that opened the k-th new row; later rows come from later candidates. */
  lemma {:induction false} OpeningSource(rows: seq<Row>, host: string, cands: seq<Candidate>, n: nat, ts: int, k: nat)
    returns (p: nat)
    requires n <= |cands| && k < |Openings(rows, host, cands, n, ts)|
    ensures p < n && OpenedBy(rows, host, cands, ts, p, Openings(rows, host, cands, n, ts)[k])
    ensures k == |Openings(rows, host, cands, p, ts)|
  {
    if k < |Openings(rows, host, cands, n - 1, ts)| {
      p := OpeningSource(rows, host, cands, n - 1, ts, k);
    } else {
      p := n - 1;
    }
  }

  lemma {:induction false} OpeningIsThere(rows: seq<Row>, host: string, cands: seq<Candidate>, n: nat, ts: int, p: nat)
    requires p < n <= |cands| && Opens(rows, host, cands[p].key)
    ensures Created(cands[p], host, ts) in Openings(rows, host, cands, n, ts)
  {
    if p < n - 1 { OpeningIsThere(rows, host, cands, n - 1, ts, p); }
  }

  /** Where a new row with this key comes from, and where that puts it. */
  lemma OpenedUnder(rows: seq<Row>, host: string, cands: seq<Candidate>, ts: int, k: nat, key: string)
    requires WellFormed(cands) && k < |Openings(rows, host, cands, |cands|, ts)|
    requires In(Openings(rows, host, cands, |cands|, ts)[k], host, Open, key)
    ensures Has(cands, key) && !AllSpace(key) && Opens(rows, host, key)
    ensures k == |Openings(rows, host, cands, Position(cands, key), ts)|
  {
    var p := OpeningSource(rows, host, cands, |cands|, ts, k);
    assert cands[p] in cands;
    PositionOf(cands, p);
  }

  /** A breach opened for this key is in the table exactly when there is cause to open one. */
  lemma OpeningsFor(rows: seq<Row>, host: string, cands: seq<Candidate>, ts: int, key: string)
    requires WellFormed(cands)
    ensures Exists(Openings(rows, host, cands, |cands|, ts), host, Open, key) <==>
              Has(cands, key) && !AllSpace(key) && Opens(rows, host, key)
  {
    var os := Openings(rows, host, cands, |cands|, ts);
    var p := Position(cands, key);
    if p < |cands| && !AllSpace(key) && Opens(rows, host, key) {
      OpeningIsThere(rows, host, cands, |cands|, ts, p);
      assert cands[p] in cands;
      var k :| 0 <= k < |os| && os[k] == Created(cands[p], host, ts);
      assert In(os[k], host, Open, key);
    }
    if Exists(os, host, Open, key) {
      var k :| 0 <= k < |os| && In(os[k], host, Open, key);
      OpenedUnder(rows, host, cands, ts, k, key);
    }
  }

  lemma OpeningsAreSingle(rows: seq<Row>, host: string, cands: seq<Candidate>, ts: int, key: string)
    requires WellFormed(cands)
    ensures !Duplicate(Openings(rows, host, cands, |cands|, ts), host, key)
    ensures !Exists(Openings(rows, host, cands, |cands|, ts), host, Ignored, key)
  {
    var os := Openings(rows, host, cands, |cands|, ts);
    if Duplicate(os, host, key) {
      var k, l :| 0 <= k < l < |os| && In(os[k], host, Open, key) && In(os[l], host, Open, key);
      OpenedUnder(rows, host, cands, ts, k, key);
      OpenedUnder(rows, host, cands, ts, l, key);
    }
  }

  /** An existing row is open under a key afterwards exactly when it was before, and it was either
      not the newest such row, or still observed. */
  lemma StaysOpen(rows: seq<Row>, host: string, cands: seq<Candidate>, ts: int, i: nat, key: string)
    requires i < |rows| && WellFormed(cands)
    ensures In(NextRow(rows, i, host, cands, ts), host, Open, key) <==>
              In(rows[i], host, Open, key) && (Newest(rows, host, key) != Some(i) || Has(cands, key))
    ensures In(NextRow(rows, i, host, cands, ts), host, Ignored, key) <==> In(rows[i], host, Ignored, key)
  {
    if ManagedKey(rows[i]).Some? {
      var p := Position(cands, ManagedKey(rows[i]).value);
      if p < |cands| { assert cands[p] in cands; }
    }
  }

  /** The keys open after reconciling, for every table: an observed key is open unless it is
      ignored, in which case it stays as it was; an unobserved one is open only if it was open more
      than once. Ignored keys stay ignored. */
  lemma OpenKeysExact(rows: seq<Row>, host: string, cands: seq<Candidate>, ts: int, key: string)
    requires WellFormed(cands)
    ensures Exists(Reconciled(rows, host, cands, ts), host, Open, key) <==>
              if !Has(cands, key) then Duplicate(rows, host, key)
              else if Exists(rows, host, Ignored, key) then Exists(rows, host, Open, key)
              else !AllSpace(key)
    ensures Exists(Reconciled(rows, host, cands, ts), host, Ignored, key) <==> Exists(rows, host, Ignored, key)
  {
    var after, n := Reconciled(rows, host, cands, ts), |rows|;
    var os := Openings(rows, host, cands, |cands|, ts);
    OpeningsFor(rows, host, cands, ts, key);
    OpeningsAreSingle(rows, host, cands, ts, key);
    forall i: nat | i < n
      ensures In(after[i], host, Open, key) <==>
                In(rows[i], host, Open, key) && (Newest(rows, host, key) != Some(i) || Has(cands, key))
      ensures In(after[i], host, Ignored, key) <==> In(rows[i], host, Ignored, key)
    {
      StaysOpen(rows, host, cands, ts, i, key);
    }
    ExistsSplit(after, n, host, Open, key);
    ExistsSplit(after, n, host, Ignored, key);
    assert after[n..] == os;
    StillThere(rows, after[..n], host, key, Has(cands, key));
  }

  lemma ExistsSplit(rows: seq<Row>, n: nat, host: string, state: BreachState, key: string)
    requires n <= |rows|
    ensures Exists(rows, host, state, key) <==>
              Exists(rows[..n], host, state, key) || Exists(rows[n..], host, state, key)
  {
    if Exists(rows, host, state, key) {
      var i :| 0 <= i < |rows| && In(rows[i], host, state, key);
      if i < n { assert rows[..n][i] == rows[i]; } else { assert rows[n..][i - n] == rows[i]; }
    }
  }

  lemma StillThere(rows: seq<Row>, after: seq<Row>, host: string, key: string, observed: bool)
    requires |after| == |rows|
    requires forall i | 0 <= i < |rows| ::
               In(after[i], host, Open, key) <==>
                 In(rows[i], host, Open, key) && (Newest(rows, host, key) != Some(i) || observed)
    requires forall i | 0 <= i < |rows| :: In(after[i], host, Ignored, key) <==> In(rows[i], host, Ignored, key)
    ensures Exists(after, host, Open, key) <==>
              if observed then Exists(rows, host, Open, key) else Duplicate(rows, host, key)
    ensures Exists(after, host, Ignored, key) <==> Exists(rows, host, Ignored, key)
  {
    var newest := Newest(rows, host, key);
    if Exists(after, host, Open, key) && !observed {
      var i :| 0 <= i < |after| && In(after[i], host, Open, key);
      assert In(rows[i], host, Open, key) && newest.Some? && newest.value != i;
    }
    if Duplicate(rows, host, key) {
      var i, j :| 0 <= i < j < |rows| && In(rows[i], host, Open, key) && In(rows[j], host, Open, key);
      assert newest != Some(i) || newest != Some(j);
      assert In(after[i], host, Open, key) || In(after[j], host, Open, key);
    }
    if Exists(rows, host, Open, key) && observed {
      var i :| 0 <= i < |rows| && In(rows[i], host, Open, key);
      assert In(after[i], host, Open, key);
    }
    if Exists(rows, host, Ignored, key) {
      var i :| 0 <= i < |rows| && In(rows[i], host, Ignored, key);
      assert In(after[i], host, Ignored, key);
    }
  }

  /** The set reconciliation is for: what is observed and not ignored. */
  predicate Wanted(rows: seq<Row>, host: string, cands: seq<Candidate>, key: string) {
    Has(cands, key) && !Exists(rows, host, Ignored, key) && !AllSpace(key)
  }

  /** Reconciliation lands on the observed keys minus the ignored ones exactly when no observed key
      was both open and ignored and no unobserved key was open twice. */
  lemma LandsOnTarget(rows: seq<Row>, host: string, cands: seq<Candidate>, ts: int)
    requires WellFormed(cands)
    ensures (forall key ::
               Exists(Reconciled(rows, host, cands, ts), host, Open, key) <==> Wanted(rows, host, cands, key))
      <==> (forall key ::
              if Has(cands, key) then !(Exists(rows, host, Ignored, key) && Exists(rows, host, Open, key))
              else !Duplicate(rows, host, key))
  {
    forall key
      ensures (Exists(Reconciled(rows, host, cands, ts), host, Open, key) <==> Wanted(rows, host, cands, key))
        <==> (if Has(cands, key) then !(Exists(rows, host, Ignored, key) && Exists(rows, host, Open, key))
              else !Duplicate(rows, host, key))
    {
      OpenKeysExact(rows, host, cands, ts, key);
    }
  }

  /** At most one open breach per key, and no key both open and ignored. */
  ghost predicate Tidy(rows: seq<Row>, host: string) {
    forall key :: TidyFor(rows, host, key)
  }

  predicate TidyFor(rows: seq<Row>, host: string, key: string) {
    !Duplicate(rows, host, key) && !(Exists(rows, host, Open, key) && Exists(rows, host, Ignored, key))
  }

  /** A tidy table stays tidy, and its open keys become the wanted ones. */
  lemma TidyIsKept(rows: seq<Row>, host: string, cands: seq<Candidate>, ts: int)
    requires WellFormed(cands) && Tidy(rows, host)
    ensures Tidy(Reconciled(rows, host, cands, ts), host)
    ensures forall key :: Exists(Reconciled(rows, host, cands, ts), host, Open, key) <==> Wanted(rows, host, cands, key)
  {
    var after, n := Reconciled(rows, host, cands, ts), |rows|;
    forall key ensures TidyFor(after, host, key)
      ensures Exists(after, host, Open, key) <==> Wanted(rows, host, cands, key)
    {
      assert TidyFor(rows, host, key);
      OpenKeysExact(rows, host, cands, ts, key);
      NoNewDuplicate(rows, host, cands, ts, key);
    }
  }

  lemma NoNewDuplicate(rows: seq<Row>, host: string, cands: seq<Candidate>, ts: int, key: string)
    requires WellFormed(cands) && !Duplicate(rows, host, key)
    ensures !Duplicate(Reconciled(rows, host, cands, ts), host, key)
  {
    var after, n := Reconciled(rows, host, cands, ts), |rows|;
    var os := Openings(rows, host, cands, |cands|, ts);
    OpeningsFor(rows, host, cands, ts, key);
    OpeningsAreSingle(rows, host, cands, ts, key);
    forall i: nat | i < n && In(after[i], host, Open, key)
      ensures In(rows[i], host, Open, key) && (Newest(rows, host, key) != Some(i) || Has(cands, key))
    {
      StaysOpen(rows, host, cands, ts, i, key);
    }
    assert after[n..] == os;
    DuplicateSplit(after, n, host, key);
  }

  /** A duplicate lies on one side of a cut, or on both. */
  lemma DuplicateSplit(rows: seq<Row>, n: nat, host: string, key: string)
    requires n <= |rows|
    ensures Duplicate(rows, host, key) ==>
              || (exists i, j | 0 <= i < j < n :: In(rows[i], host, Open, key) && In(rows[j], host, Open, key))
              || ((exists i | 0 <= i < n :: In(rows[i], host, Open, key)) && Exists(rows[n..], host, Open, key))
              || Duplicate(rows[n..], host, key)
  {
    if Duplicate(rows, host, key) {
      var i, j :| 0 <= i < j < |rows| && In(rows[i], host, Open, key) && In(rows[j], host, Open, key);
      if j >= n {
        assert rows[n..][j - n] == rows[j];
        if i >= n { assert rows[n..][i - n] == rows[i]; }
      }
    }
  }

  /** Rows of other hosts, rows this module does not manage and rows that are not open are left as
      they are; every row keeps its host; what is added is open and belongs to the host. */
  lemma OthersUntouched(rows: seq<Row>, host: string, cands: seq<Candidate>, ts: int, i: nat)
    requires i < |Reconciled(rows, host, cands, ts)| && WellFormed(cands)
    ensures var after := Reconciled(rows, host, cands, ts);
            if i >= |rows| then after[i].hostId == host && after[i].state == Open
            else
              && after[i].hostId == rows[i].hostId && after[i].openedTs == rows[i].openedTs
              && (rows[i].hostId != host || rows[i].state != Open || ManagedKey(rows[i]).None? ==> after[i] == rows[i])
              && (after[i].state != rows[i].state ==> after[i].state == Fixed && after[i].fixedTs == Some(ts))
  {
    var os := Openings(rows, host, cands, |cands|, ts);
    if i >= |rows| { assert Reconciled(rows, host, cands, ts)[i] == os[i - |rows|]; }
  }

  // ---------------------------------------------------------------- idempotence

  predicate Matches(r: Row, c: Candidate) {
    r.code == Some(c.code) && r.title == c.title && r.detail == c.detail && r.severity == c.severity
  }

  /** The candidates of the same status seen again: only the evidence may differ. */
  ghost predicate SameStatus(cands: seq<Candidate>, later: seq<Candidate>) {
    && |later| == |cands|
    && forall p | 0 <= p < |cands| ::
         later[p].key == cands[p].key && later[p].code == cands[p].code && later[p].title == cands[p].title
         && later[p].detail == cands[p].detail && later[p].severity == cands[p].severity
  }

  lemma SamePosition(cands: seq<Candidate>, later: seq<Candidate>, key: string)
    requires SameStatus(cands, later)
    ensures Position(later, key) == Position(cands, key)
  {
    var p, q := Position(cands, key), Position(later, key);
    assert p < |cands| ==> later[p].key == key;
    assert q < |later| ==> cands[q].key == key;
  }

  lemma KeptRowMatches(rows: seq<Row>, host: string, cands: seq<Candidate>, ts: int, i: nat,
                       key: string)
    requires WellFormed(cands) && TidyFor(rows, host, key) && i < |rows|
    requires In(NextRow(rows, i, host, cands, ts), host, Open, key)
    ensures Has(cands, key) && Matches(NextRow(rows, i, host, cands, ts), cands[Position(cands, key)])
  {
    StaysOpen(rows, host, cands, ts, i, key);
    assert Newest(rows, host, key) == Some(i);
    assert !Exists(rows, host, Ignored, key);
  }

  lemma OpenedRowMatches(rows: seq<Row>, host: string, cands: seq<Candidate>, ts: int, k: nat,
                         key: string)
    requires WellFormed(cands) && k < |Openings(rows, host, cands, |cands|, ts)|
    requires In(Openings(rows, host, cands, |cands|, ts)[k], host, Open, key)
    ensures Has(cands, key) && Matches(Openings(rows, host, cands, |cands|, ts)[k], cands[Position(cands, key)])
  {
    var p := OpeningSource(rows, host, cands, |cands|, ts, k);
    assert cands[p] in cands;
    PositionOf(cands, p);
  }

  /** After reconciling a tidy table, every open breach carries what was observed under its key. */
  lemma OpenRowsMatch(rows: seq<Row>, host: string, cands: seq<Candidate>, ts: int, i: nat,
                      key: string)
    requires WellFormed(cands) && TidyFor(rows, host, key)
    requires var after := Reconciled(rows, host, cands, ts); i < |after| && In(after[i], host, Open, key)
    ensures Has(cands, key) && Matches(Reconciled(rows, host, cands, ts)[i], cands[Position(cands, key)])
  {
    if i < |rows| {
      KeptRowMatches(rows, host, cands, ts, i, key);
    } else {
      OpenedRowMatches(rows, host, cands, ts, i - |rows|, key);
    }
  }

  /** Reconciling the same status again, at whatever later snapshot, changes nothing at all. */
  lemma ReconcilingAgainChangesNothing(rows: seq<Row>, host: string, cands: seq<Candidate>, ts: int,
                                       later: seq<Candidate>, laterTs: int)
    requires WellFormed(cands) && Tidy(rows, host) && SameStatus(cands, later)
    requires forall c | c in cands :: !AllSpace(c.key)
    ensures var after := Reconciled(rows, host, cands, ts); Reconciled(after, host, later, laterTs) == after
  {
    var after := Reconciled(rows, host, cands, ts);
    TidyIsKept(rows, host, cands, ts);
    forall i: nat | i < |after| ensures NextRow(after, i, host, later, laterTs) == after[i] {
      if ManagedKey(after[i]).Some? {
        var key := ManagedKey(after[i]).value;
        if Newest(after, host, key) == Some(i) {
          assert TidyFor(rows, host, key);
          OpenRowsMatch(rows, host, cands, ts, i, key);
          SamePosition(cands, later, key);
        }
      }
    }
    NothingOpens(rows, host, cands, ts, later, |later|, laterTs);
  }

  lemma {:induction false} NothingOpens(rows: seq<Row>, host: string, cands: seq<Candidate>, ts: int,
                                        later: seq<Candidate>, n: nat, laterTs: int)
    requires WellFormed(cands) && Tidy(rows, host) && SameStatus(cands, later) && n <= |later|
    requires forall c | c in cands :: !AllSpace(c.key)
    ensures Openings(Reconciled(rows, host, cands, ts), host, later, n, laterTs) == []
  {
    if n > 0 {
      NothingOpens(rows, host, cands, ts, later, n - 1, laterTs);
      PositionOf(cands, n - 1);
      NoCauseToOpen(rows, host, cands, ts, later[n - 1].key);
    }
  }

  lemma NoCauseToOpen(rows: seq<Row>, host: string, cands: seq<Candidate>, ts: int, key: string)
    requires WellFormed(cands) && Has(cands, key) && !AllSpace(key)
    ensures !Opens(Reconciled(rows, host, cands, ts), host, key)
  {
    OpenKeysExact(rows, host, cands, ts, key);
  }
}
