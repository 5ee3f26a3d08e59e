/** What becomes of the breaches of a host when two reconciliations of it overlap
    (src/lib/auto-breaches.ts): each reads the table before either writes, and then writes by id what
    follows from its reading. */
module BreachRaces {
  import opened Common
  import opened AutoBreaches

  // ---------------------------------------------------------------- late writes

  /** The update of a breach that is still observed, decided on the row as it was read. */
  function RefreshedLate(now: Row, read: Row, c: Candidate): Row {
    if Matches(read, c) then now
    else now.(code := Some(c.code), title := c.title, detail := c.detail, severity := c.severity,
              evidence := Some(c.evidence))
  }

  /** The update of a breach that is no longer observed; the evidence is that of the row as it was read. */
  function ResolvedLate(now: Row, read: Row, ts: int): Row
    requires read.evidence.Some?
  {
    var r := Resolved(read, ts);
    now.(state := r.state, fixedTs := r.fixedTs, evidence := r.evidence)
  }

  /** What a reconciliation that has read the rows makes of row i as it is now. */
  function LateRow(now: Row, read: seq<Row>, i: nat, host: string, cands: seq<Candidate>, ts: int): Row
    requires i < |read|
  {
    var r := read[i];
    if ManagedKey(r).None? then now
    else
      var key := ManagedKey(r).value;
      var p := Position(cands, key);
      if Newest(read, host, key) != Some(i) then now
      else if p == |cands| then ResolvedLate(now, r, ts)
      else if Exists(read, host, Ignored, key) then now
      else RefreshedLate(now, r, cands[p])
  }

  /** The table after the writes of a reconciliation that has read it earlier. */
  function LateReconciled(rows: seq<Row>, read: seq<Row>, host: string, cands: seq<Candidate>, ts: int): seq<Row>
    requires |read| <= |rows|
  {
    seq(|rows|, (i: nat) requires i < |rows| =>
      if i < |read| then LateRow(rows[i], read, i, host, cands, ts) else rows[i])
    + Openings(read, host, cands, |cands|, ts)
  }

  /** Written at once, it is the reconciliation of an undisturbed table. */
  lemma PromptReconciliation(rows: seq<Row>, host: string, cands: seq<Candidate>, ts: int)
    ensures LateReconciled(rows, rows, host, cands, ts) == Reconciled(rows, host, cands, ts)
  {
    forall i: nat | i < |rows|
      ensures LateRow(rows[i], rows, i, host, cands, ts) == NextRow(rows, i, host, cands, ts)
    {
    }
  }

  // ---------------------------------------------------------------- two at once

  /** Both have read the rows, the first has written, then the second writes. */
  function Overlapped(rows: seq<Row>, host: string, first: seq<Candidate>, firstTs: int, second: seq<Candidate>,
                      secondTs: int): seq<Row>
  {
    LateReconciled(Reconciled(rows, host, first, firstTs), rows, host, second, secondTs)
  }

  /** A late write never moves a row to another host or key, and closes it exactly when it was the one to
      close. */
  lemma LateStaysOpen(now: Row, read: seq<Row>, i: nat, host: string, cands: seq<Candidate>, ts: int, key: string)
    requires i < |read| && WellFormed(cands)
    requires now.hostId == read[i].hostId && ManagedKey(now) == ManagedKey(read[i])
    ensures In(LateRow(now, read, i, host, cands, ts), host, Open, key) <==>
              In(now, host, Open, key) && (Newest(read, host, key) != Some(i) || Has(cands, key))
  {
    if ManagedKey(now).Some? {
      var p := Position(cands, ManagedKey(now).value);
      if p < |cands| { assert cands[p] in cands; }
    }
  }

  lemma NextKeepsKey(rows: seq<Row>, i: nat, host: string, cands: seq<Candidate>, ts: int)
    requires i < |rows| && WellFormed(cands)
    ensures var r := NextRow(rows, i, host, cands, ts);
            r.hostId == rows[i].hostId && ManagedKey(r) == ManagedKey(rows[i])
  {
    if ManagedKey(rows[i]).Some? {
      var p := Position(cands, ManagedKey(rows[i]).value);
      if p < |cands| { assert cands[p] in cands; }
    }
  }

  /** A row that was there before stays open under its key exactly when both still observe it. */
  lemma OldRowStaysOpen(rows: seq<Row>, host: string, first: seq<Candidate>, firstTs: int, second: seq<Candidate>,
                        secondTs: int, i: nat, key: string)
    requires i < |rows| && WellFormed(first) && WellFormed(second)
    ensures In(Overlapped(rows, host, first, firstTs, second, secondTs)[i], host, Open, key) <==>
              In(rows[i], host, Open, key)
              && (Newest(rows, host, key) != Some(i) || (Has(first, key) && Has(second, key)))
  {
    NextKeepsKey(rows, i, host, first, firstTs);
    StaysOpen(rows, host, first, firstTs, i, key);
    LateStaysOpen(NextRow(rows, i, host, first, firstTs), rows, i, host, second, secondTs, key);
  }

  /** What one of the two opens for a key. */
  predicate OpensAnew(rows: seq<Row>, host: string, cands: seq<Candidate>, key: string) {
    Has(cands, key) && !AllSpace(key) && Opens(rows, host, key)
  }

  // ---------------------------------------------------------------- how often a key is open

  /** The open breaches with this key. */
  function OpenFor(rows: seq<Row>, host: string, key: string): nat {
    if rows == [] then 0
    else OpenFor(rows[..|rows| - 1], host, key) + (if In(rows[|rows| - 1], host, Open, key) then 1 else 0)
  }

  lemma {:induction false} OpenForConcat(a: seq<Row>, b: seq<Row>, host: string, key: string)
    ensures OpenFor(a + b, host, key) == OpenFor(a, host, key) + OpenFor(b, host, key)
  {
    if b == [] {
      assert a + b == a;
    } else {
      OpenForConcat(a, b[..|b| - 1], host, key);
      assert (a + b)[..|a + b| - 1] == a + b[..|b| - 1];
    }
  }

  lemma {:induction false} SameOpenFor(rows: seq<Row>, rows': seq<Row>, host: string, key: string)
    requires |rows'| == |rows|
    requires forall i | 0 <= i < |rows| :: In(rows'[i], host, Open, key) <==> In(rows[i], host, Open, key)
    ensures OpenFor(rows', host, key) == OpenFor(rows, host, key)
  {
    if rows != [] {
      var n := |rows| - 1;
      assert forall i | 0 <= i < n :: rows[..n][i] == rows[i] && rows'[..n][i] == rows'[i];
      SameOpenFor(rows[..n], rows'[..n], host, key);
    }
  }

  /** A key is open when it is open at least once, and open twice when it is open at least twice. */
  lemma {:induction false} OpenForTells(rows: seq<Row>, host: string, key: string)
    ensures OpenFor(rows, host, key) >= 1 <==> Exists(rows, host, Open, key)
    ensures OpenFor(rows, host, key) >= 2 <==> Duplicate(rows, host, key)
  {
    if rows != [] {
      var n := |rows| - 1;
      var before := rows[..n];
      OpenForTells(before, host, key);
      assert forall i | 0 <= i < n :: before[i] == rows[i];
      if Exists(before, host, Open, key) {
        var i :| 0 <= i < n && In(before[i], host, Open, key);
        assert In(rows[i], host, Open, key);
      }
      if Duplicate(before, host, key) {
        var i, j :| 0 <= i < j < n && In(before[i], host, Open, key) && In(before[j], host, Open, key);
        assert In(rows[i], host, Open, key) && In(rows[j], host, Open, key);
      }
      if Duplicate(rows, host, key) {
        var i, j :| 0 <= i < j < |rows| && In(rows[i], host, Open, key) && In(rows[j], host, Open, key);
        assert In(before[i], host, Open, key) && (j < n ==> In(before[j], host, Open, key));
      }
    }
  }

  lemma OpenedFor(rows: seq<Row>, host: string, cands: seq<Candidate>, ts: int, key: string)
    requires WellFormed(cands)
    ensures OpenFor(Openings(rows, host, cands, |cands|, ts), host, key)
         == if OpensAnew(rows, host, cands, key) then 1 else 0
  {
    OpeningsFor(rows, host, cands, ts, key);
    OpeningsAreSingle(rows, host, cands, ts, key);
    OpenForTells(Openings(rows, host, cands, |cands|, ts), host, key);
  }

  lemma OldRowsOpenFor(rows: seq<Row>, after: seq<Row>, host: string, key: string, kept: bool)
    requires |after| == |rows| && !Duplicate(rows, host, key)
    requires forall i | 0 <= i < |rows| ::
               In(after[i], host, Open, key) <==>
                 In(rows[i], host, Open, key) && (Newest(rows, host, key) != Some(i) || kept)
    ensures OpenFor(after, host, key) == if Exists(rows, host, Open, key) && kept then 1 else 0
  {
    OpenForTells(rows, host, key);
    OpenForTells(after, host, key);
    if kept {
      SameOpenFor(rows, after, host, key);
    } else {
      forall i: nat | i < |rows| && In(rows[i], host, Open, key) ensures Newest(rows, host, key) == Some(i) {
        assert In(rows[Newest(rows, host, key).value], host, Open, key);
      }
    }
  }

  /** The old rows, as both have written them. */
  function KeptRows(rows: seq<Row>, host: string, first: seq<Candidate>, firstTs: int, second: seq<Candidate>,
                    secondTs: int): (kept: seq<Row>)
    ensures |kept| == |rows|
  {
    Overlapped(rows, host, first, firstTs, second, secondTs)[..|rows|]
  }

  /** The table consists of the old rows, what the first has opened and what the second has. */
  lemma OverlappedParts(rows: seq<Row>, host: string, first: seq<Candidate>, firstTs: int, second: seq<Candidate>,
                        secondTs: int)
    ensures Overlapped(rows, host, first, firstTs, second, secondTs)
         == KeptRows(rows, host, first, firstTs, second, secondTs) + Openings(rows, host, first, |first|, firstTs)
            + Openings(rows, host, second, |second|, secondTs)
  {
    var added := Openings(rows, host, first, |first|, firstTs);
    assert Reconciled(rows, host, first, firstTs)[|rows|..] == added;
  }

  lemma KeptRowsOpenFor(rows: seq<Row>, host: string, first: seq<Candidate>, firstTs: int, second: seq<Candidate>,
                        secondTs: int, key: string)
    requires WellFormed(first) && WellFormed(second) && !Duplicate(rows, host, key)
    ensures OpenFor(KeptRows(rows, host, first, firstTs, second, secondTs), host, key)
         == if Exists(rows, host, Open, key) && Has(first, key) && Has(second, key) then 1 else 0
  {
    var kept, both := KeptRows(rows, host, first, firstTs, second, secondTs), Has(first, key) && Has(second, key);
    forall i: nat | i < |rows|
      ensures In(kept[i], host, Open, key) <==>
                In(rows[i], host, Open, key) && (Newest(rows, host, key) != Some(i) || both)
    {
      OldRowStaysOpen(rows, host, first, firstTs, second, secondTs, i, key);
    }
    OldRowsOpenFor(rows, kept, host, key, both);
  }

  /** How often a key is open after two overlapping reconciliations of a tidy table: a key that was open
      stays open if both observe it; any other key that is neither ignored nor blank is opened by each
      that observes it. */
  lemma OverlappedOpenFor(rows: seq<Row>, host: string, first: seq<Candidate>, firstTs: int, second: seq<Candidate>,
                          secondTs: int, key: string)
    requires WellFormed(first) && WellFormed(second) && TidyFor(rows, host, key)
    ensures OpenFor(Overlapped(rows, host, first, firstTs, second, secondTs), host, key)
         == if Exists(rows, host, Open, key) then (if Has(first, key) && Has(second, key) then 1 else 0)
            else
              (if OpensAnew(rows, host, first, key) then 1 else 0)
              + (if OpensAnew(rows, host, second, key) then 1 else 0)
  {
    var kept := KeptRows(rows, host, first, firstTs, second, secondTs);
    var added := Openings(rows, host, first, |first|, firstTs);
    OverlappedParts(rows, host, first, firstTs, second, secondTs);
    OpenForConcat(kept + added, Openings(rows, host, second, |second|, secondTs), host, key);
    OpenForConcat(kept, added, host, key);
    KeptRowsOpenFor(rows, host, first, firstTs, second, secondTs, key);
    OpenedFor(rows, host, first, firstTs, key);
    OpenedFor(rows, host, second, secondTs, key);
  }

  /** The first of two reconciliations changes whether the key is open, and the second cannot know. */
  predicate Unnoticed(rows: seq<Row>, host: string, first: seq<Candidate>, second: seq<Candidate>, key: string) {
    || OpensAnew(rows, host, first, key)
    || (Exists(rows, host, Open, key) && !Has(first, key) && Has(second, key))
  }

  /** Two overlapping reconciliations of a tidy table open a key twice exactly when both observe it and it
      is neither open nor ignored. They leave the table as the second one wants it, each wanted key open
      once and no other, exactly when the first opens no key and closes none that the second observes. */
  lemma OverlappedLandsOnTargetExactlyWhen(rows: seq<Row>, host: string, first: seq<Candidate>, firstTs: int,
                                           second: seq<Candidate>, secondTs: int, key: string)
    requires WellFormed(first) && WellFormed(second) && Tidy(rows, host)
    ensures var t := Overlapped(rows, host, first, firstTs, second, secondTs);
            && (Duplicate(t, host, key) <==> OpensAnew(rows, host, first, key) && OpensAnew(rows, host, second, key))
            && (OpenFor(t, host, key) == (if Wanted(rows, host, second, key) then 1 else 0) <==>
                  !Unnoticed(rows, host, first, second, key))
  {
    assert TidyFor(rows, host, key);
    OverlappedOpenFor(rows, host, first, firstTs, second, secondTs, key);
    OpenForTells(Overlapped(rows, host, first, firstTs, second, secondTs), host, key);
    OpenForTells(rows, host, key);
  }

  /** It happens, from an empty table: two overlapping reconciliations of the same status open a breach
      twice, and when its cause is gone, the next one closes only one of the two. */
  lemma OpenedTwiceStaysOpen(host: string, c: Candidate, firstTs: int, secondTs: int, thirdTs: int)
    requires WellFormed([c]) && !AllSpace(c.key)
    ensures var t := Overlapped([], host, [c], firstTs, [c], secondTs);
            && Tidy([], host) && Duplicate(t, host, c.key)
            && Exists(Reconciled(t, host, [], thirdTs), host, Open, c.key)
  {
    var t := Overlapped([], host, [c], firstTs, [c], secondTs);
    assert Has([c], c.key);
    OverlappedLandsOnTargetExactlyWhen([], host, [c], firstTs, [c], secondTs, c.key);
    OpenKeysExact(t, host, [], thirdTs, c.key);
  }
}
