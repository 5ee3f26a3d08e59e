/** What the breaches of a host say (src/lib/auto-breaches.ts): which signals become breaches, and what
    is in a breach that is opened, brought up to date or closed. */
module BreachContents {
  import opened Common
  import opened IncidentTimeline
  import opened AutoBreaches

  // ---------------------------------------------------------------- from signals to candidates

  /** Four codes are alarming by themselves, and so is every critical alert. */
  predicate Alarming(s: Signal) {
    || s.code == "config_tamper" || s.code == "firewall_drift" || s.code == "account_drift"
    || s.code == "unexpected_public_ports"
    || (s.source == FromAlert && s.severity == Critical)
  }

  lemma PromotedExactly(s: Signal)
    ensures Promoted(s) <==> Alarming(s)
  {
  }

  /** Two signals are taken for the same breach when they have the same code and, if it is that of a
      generic alert, the same title up to case and the white space around it; or when the code of one is
      spelled like the key of a generic alert. */
  predicate SameBreach(a: Signal, b: Signal, lower: string -> string) {
    || (a.code == b.code && (a.code == "alert_generic" ==> lower(Trim(a.title)) == lower(Trim(b.title))))
    || SpelledLike(a, b, lower) || SpelledLike(b, a, lower)
  }

  predicate SpelledLike(a: Signal, b: Signal, lower: string -> string) {
    b.code == "alert_generic" != a.code && a.code == "alert_generic:" + lower(Trim(b.title))
  }

  lemma KeysMeetExactlyWhen(a: Signal, b: Signal, lower: string -> string)
    ensures BreachKey(a, lower) == BreachKey(b, lower) <==> SameBreach(a, b, lower)
  {
    var x, y := "alert_generic:" + lower(Trim(a.title)), "alert_generic:" + lower(Trim(b.title));
    assert x[|"alert_generic:"|..] == lower(Trim(a.title)) && y[|"alert_generic:"|..] == lower(Trim(b.title));
    assert |x| > |"alert_generic"| && |y| > |"alert_generic"|;
  }

  /** The first of the most severe alarming signals for its breach. */
  ghost predicate Leads(signals: seq<Signal>, i: nat, lower: string -> string) {
    && i < |signals| && Alarming(signals[i])
    && forall j | 0 <= j < |signals| && Alarming(signals[j]) && SameBreach(signals[j], signals[i], lower) ::
         && AtLeastAsSevere(signals[i].severity, signals[j].severity)
         && (j < i ==> !AtLeastAsSevere(signals[j].severity, signals[i].severity))
  }

  /** The offers come from the promoted signals, at these positions and in order. */
  ghost predicate OfferedAt(signals: seq<Signal>, n: nat, lower: string -> string, snap: Snapshot,
                            offers: seq<Candidate>, at: seq<nat>)
    requires n <= |signals|
  {
    && |at| == |offers|
    && (forall k | 0 <= k < |at| ::
          at[k] < n && Promoted(signals[at[k]]) && offers[k] == CandidateOf(signals[at[k]], lower, snap))
    && (forall j, k | 0 <= j < k < |at| :: at[j] < at[k])
    && (forall i: nat | i < n && Promoted(signals[i]) :: i in at)
  }

  lemma OneMoreOffer(signals: seq<Signal>, n: nat, lower: string -> string, snap: Snapshot, offers: seq<Candidate>,
                     at: seq<nat>)
    requires n < |signals| && OfferedAt(signals, n, lower, snap, offers, at)
    ensures if Promoted(signals[n])
            then OfferedAt(signals, n + 1, lower, snap, offers + [CandidateOf(signals[n], lower, snap)], at + [n])
            else OfferedAt(signals, n + 1, lower, snap, offers, at)
  {
    forall i: nat | i < n && Promoted(signals[i]) ensures i in at + [n] { assert i in at; }
  }

  lemma {:induction false} OffersAreSignals(signals: seq<Signal>, n: nat, lower: string -> string, snap: Snapshot)
    returns (at: seq<nat>)
    requires n <= |signals|
    ensures OfferedAt(signals, n, lower, snap, Offers(signals, n, lower, snap), at)
  {
    if n == 0 {
      at := [];
    } else {
      at := OffersAreSignals(signals, n - 1, lower, snap);
      OneMoreOffer(signals, n - 1, lower, snap, Offers(signals, n - 1, lower, snap), at);
      OffersStep(signals, n - 1, lower, snap);
      if Promoted(signals[n - 1]) { at := at + [n - 1]; }
    }
  }

  /** The candidate is what the signal says of the host at that snapshot. */
  predicate Says(c: Candidate, s: Signal, lower: string -> string, snap: Snapshot) {
    && c.key == BreachKey(s, lower) && c.code == s.code && c.title == s.title && c.detail == s.detail
    && c.signalSeverity == s.severity
    && (c.severity == CriticalBreach <==> s.severity == Critical)
    && (c.severity == WarnBreach <==> s.severity == High || s.severity == Medium)
    && c.evidence.key == c.key && c.evidence.snapshotId == snap.id && c.evidence.snapshotTs == snap.ts
    && c.evidence.lastObservedTs == snap.ts && c.evidence.resolvedTs == None
    && c.evidence.finding == Finding(s.code, s.severity, s.title, s.detail, s.source)
  }

  lemma WeightsRank(a: Severity, b: Severity)
    ensures Weight(a) >= Weight(b) <==> AtLeastAsSevere(a, b)
  {
  }

  lemma StrongestLeads(signals: seq<Signal>, lower: string -> string, snap: Snapshot, offers: seq<Candidate>,
                       at: seq<nat>, key: string)
    requires OfferedAt(signals, |signals|, lower, snap, offers, at) && Strongest(offers, key).Some?
    ensures var best := Strongest(offers, key).value;
            Leads(signals, at[best], lower) && Says(offers[best], signals[at[best]], lower, snap)
  {
    var best := Strongest(offers, key).value;
    var i := at[best];
    PromotedExactly(signals[i]);
    forall j | 0 <= j < |signals| && Alarming(signals[j]) && SameBreach(signals[j], signals[i], lower)
      ensures AtLeastAsSevere(signals[i].severity, signals[j].severity)
      ensures j < i ==> !AtLeastAsSevere(signals[j].severity, signals[i].severity)
    {
      PromotedExactly(signals[j]);
      KeysMeetExactlyWhen(signals[j], signals[i], lower);
      var k :| 0 <= k < |at| && at[k] == j;
      assert offers[k].key == key;
      WeightsRank(signals[i].severity, signals[j].severity);
      WeightsRank(signals[j].severity, signals[i].severity);
      if j < i { assert k < best; }
    }
  }

  /** The candidates are what the leading signals say, and every alarming signal has one. */
  lemma CandidatesSayWhatLeads(signals: seq<Signal>, lower: string -> string, snap: Snapshot)
    ensures var cands := Collected(Offers(signals, |signals|, lower, snap));
            && (forall c | c in cands :: exists i: nat :: Leads(signals, i, lower) && Says(c, signals[i], lower, snap))
            && (forall i | 0 <= i < |signals| && Alarming(signals[i]) :: Has(cands, BreachKey(signals[i], lower)))
  {
    var offers := Offers(signals, |signals|, lower, snap);
    var cands := Collected(offers);
    var at := OffersAreSignals(signals, |signals|, lower, snap);
    CandidatesAreStrongest(offers);
    forall c | c in cands ensures exists i: nat :: Leads(signals, i, lower) && Says(c, signals[i], lower, snap) {
      StrongestLeads(signals, lower, snap, offers, at, c.key);
    }
    forall i | 0 <= i < |signals| && Alarming(signals[i]) ensures Has(cands, BreachKey(signals[i], lower)) {
      PromotedExactly(signals[i]);
      var k :| 0 <= k < |at| && at[k] == i;
      assert offers[k].key == BreachKey(signals[i], lower);
    }
  }

  // ---------------------------------------------------------------- the rows afterwards

  /** An open breach that tells what the signal says. */
  predicate Tells(r: Row, s: Signal) {
    && r.state == Open && r.code == Some(s.code) && r.title == s.title && r.detail == s.detail
    && (r.severity == CriticalBreach <==> s.severity == Critical)
    && (r.severity == WarnBreach <==> s.severity == High || s.severity == Medium)
  }

  /** A breach opened at this snapshot. */
  predicate OpenedAs(r: Row, host: string, s: Signal, lower: string -> string, snap: Snapshot) {
    && Tells(r, s) && r.hostId == host && r.openedTs == snap.ts && r.fixedTs == None
    && r.evidence.Some? && r.evidence.value.key == BreachKey(s, lower)
    && r.evidence.value.snapshotId == snap.id && r.evidence.value.snapshotTs == snap.ts
    && r.evidence.value.lastObservedTs == snap.ts && r.evidence.value.resolvedTs == None
    && r.evidence.value.finding == Finding(s.code, s.severity, s.title, s.detail, s.source)
  }

  /** A breach that is still observed: told as the signal says now, and still the same breach. */
  predicate KeptUpAs(r: Row, r': Row, s: Signal, lower: string -> string) {
    && Tells(r', s) && r'.hostId == r.hostId && r'.openedTs == r.openedTs && r'.fixedTs == r.fixedTs
    && ManagedKey(r) == Some(BreachKey(s, lower))
    && r'.evidence.Some? && r'.evidence.value.key == BreachKey(s, lower)
  }

  /** A breach whose cause is gone: closed at this snapshot, with its evidence kept and its own detail
      added where the evidence had none. */
  predicate ClosedAs(r: Row, r': Row, ts: int) {
    && r.state == Open && r'.state == Fixed && r'.fixedTs == Some(ts)
    && r' == r.(state := r'.state, fixedTs := r'.fixedTs, evidence := r'.evidence)
    && r.evidence.Some? && r'.evidence.Some?
    && (var e, e' := r.evidence.value, r'.evidence.value;
        && e'.key == e.key && e'.snapshotId == e.snapshotId && e'.snapshotTs == e.snapshotTs
        && e'.lastObservedTs == e.snapshotTs && e'.resolvedTs == Some(ts)
        && e'.finding.code == e.finding.code && e'.finding.severity == e.finding.severity
        && e'.finding.title == e.finding.title && e'.finding.source == e.finding.source
        && e'.finding.detail == if e.finding.detail.Some? then e.finding.detail else r.detail)
  }

  /** What a reconciliation may make of a row: nothing, an up-to-date breach, or a closed one. */
  ghost predicate Accounted(r: Row, r': Row, signals: seq<Signal>, lower: string -> string, ts: int) {
    || r' == r || ClosedAs(r, r', ts)
    || exists i: nat :: Leads(signals, i, lower) && KeptUpAs(r, r', signals[i], lower)
  }

  ghost predicate OpenedFor(r: Row, host: string, signals: seq<Signal>, lower: string -> string, snap: Snapshot) {
    exists i: nat :: Leads(signals, i, lower) && OpenedAs(r, host, signals[i], lower, snap)
  }

  lemma CreatedIsOpened(c: Candidate, host: string, s: Signal, lower: string -> string, snap: Snapshot)
    requires Says(c, s, lower, snap)
    ensures OpenedAs(Created(c, host, snap.ts), host, s, lower, snap)
  {
  }

  lemma RefreshedIsKeptUp(r: Row, c: Candidate, s: Signal, lower: string -> string, snap: Snapshot)
    requires Says(c, s, lower, snap) && r.state == Open && ManagedKey(r) == Some(c.key)
    ensures KeptUpAs(r, Refreshed(r, c), s, lower)
  {
  }

  lemma NextRowIsAccounted(rows: seq<Row>, i: nat, host: string, signals: seq<Signal>, lower: string -> string,
                           snap: Snapshot, cands: seq<Candidate>)
    requires i < |rows| && cands == Collected(Offers(signals, |signals|, lower, snap))
    ensures Accounted(rows[i], NextRow(rows, i, host, cands, snap.ts), signals, lower, snap.ts)
  {
    var r := rows[i];
    CandidatesSayWhatLeads(signals, lower, snap);
    if ManagedKey(r).Some? && Newest(rows, host, ManagedKey(r).value) == Some(i) {
      var key := ManagedKey(r).value;
      var p := Position(cands, key);
      assert In(r, host, Open, key);
      if p == |cands| {
        assert ClosedAs(r, Resolved(r, snap.ts), snap.ts);
      } else {
        assert cands[p] in cands;
        var k: nat :| Leads(signals, k, lower) && Says(cands[p], signals[k], lower, snap);
        RefreshedIsKeptUp(r, cands[p], signals[k], lower, snap);
      }
    }
  }

  lemma CandidateIsOpened(host: string, signals: seq<Signal>, lower: string -> string, snap: Snapshot, c: Candidate)
    requires c in Collected(Offers(signals, |signals|, lower, snap))
    ensures OpenedFor(Created(c, host, snap.ts), host, signals, lower, snap)
  {
    CandidatesSayWhatLeads(signals, lower, snap);
    var k: nat :| Leads(signals, k, lower) && Says(c, signals[k], lower, snap);
    CreatedIsOpened(c, host, signals[k], lower, snap);
  }

  lemma {:induction false} OpeningsAreOpened(rows: seq<Row>, host: string, signals: seq<Signal>,
                                             lower: string -> string, snap: Snapshot, cands: seq<Candidate>, n: nat)
    requires cands == Collected(Offers(signals, |signals|, lower, snap)) && n <= |cands|
    ensures forall r | r in Openings(rows, host, cands, n, snap.ts) :: OpenedFor(r, host, signals, lower, snap)
  {
    if n > 0 {
      OpeningsAreOpened(rows, host, signals, lower, snap, cands, n - 1);
      CandidateIsOpened(host, signals, lower, snap, cands[n - 1]);
    }
  }

  /** Every row of the reconciled table is accounted for: an old one is as it was, closed, or told anew as
      the leading signal for it says, and a new one is opened for such a signal. */
  lemma RowsAreAccountedFor(rows: seq<Row>, host: string, signals: seq<Signal>, lower: string -> string, snap: Snapshot)
    ensures var after := Reconciled(rows, host, Collected(Offers(signals, |signals|, lower, snap)), snap.ts);
            && |after| >= |rows|
            && (forall i | 0 <= i < |rows| :: Accounted(rows[i], after[i], signals, lower, snap.ts))
            && (forall i | |rows| <= i < |after| :: OpenedFor(after[i], host, signals, lower, snap))
  {
    var cands := Collected(Offers(signals, |signals|, lower, snap));
    var after := Reconciled(rows, host, cands, snap.ts);
    forall i | 0 <= i < |rows| ensures Accounted(rows[i], after[i], signals, lower, snap.ts) {
      NextRowIsAccounted(rows, i, host, signals, lower, snap, cands);
    }
    OpeningsAreOpened(rows, host, signals, lower, snap, cands, |cands|);
    var openings := Openings(rows, host, cands, |cands|, snap.ts);
    forall i | |rows| <= i < |after| ensures OpenedFor(after[i], host, signals, lower, snap) {
      assert after[i] == openings[i - |rows|] && after[i] in openings;
    }
  }
}
