/** The incident timeline: newest first, repeats of a correlated signal within the window dropped
    (src/lib/incident-signals.ts). Instants are milliseconds. */
module IncidentTimeline {
  import opened Common
  import Sorting

  datatype Severity = Critical | High | Medium | Low | Info

  datatype Source = FromAlert | FromAuth | FromPorts | FromIngest

  datatype Signal = Signal(code: string, severity: Severity, title: string, detail: Option<string>,
                           source: Source, ts: int)

  function Weight(s: Severity): nat {
    match s case Critical => 5 case High => 4 case Medium => 3 case Low => 2 case Info => 1
  }

  /** The sort order of the source: newest first, then most severe. */
  predicate NewestFirst(a: Signal, b: Signal) {
    a.ts > b.ts || (a.ts == b.ts && Weight(a.severity) >= Weight(b.severity))
  }

  /** No severity ranks above critical, and none below info. */
  predicate AtLeastAsSevere(a: Severity, b: Severity) {
    match a
    case Critical => true
    case High => b != Critical
    case Medium => b != Critical && b != High
    case Low => b == Low || b == Info
    case Info => b == Info
  }

  /** correlationKey */
  function Key(s: Signal): string {
    s.code + "|" + s.title + "|" + (if s.detail.Some? then s.detail.value else "")
  }

  /** minutesBetweenIso: whole minutes, halves rounded up, for a no older than b. */
  function Minutes(a: int, b: int): int {
    var rounded := (2 * (a - b) + 60_000) / 120_000;
    if rounded < 0 then -rounded else rounded
  }

  /** Two instants are within so many minutes, as the source counts them, when they are less than half a
      minute further apart than that. */
  predicate Near(a: int, b: int, minutes: int) { a - b < 60_000 * minutes + 30_000 }

  lemma MinutesAreRounded(a: int, b: int, minutes: int)
    requires a >= b
    ensures Minutes(a, b) <= minutes <==> Near(a, b, minutes)
  {
  }

  // ---------------------------------------------------------------- greedy dedupe

  /** The last kept signal with this key among the first n. */
  function LastKept(signals: seq<Signal>, window: int, n: nat, key: string): (r: Option<nat>)
    requires n <= |signals|
    ensures r.Some? ==> r.value < n && Key(signals[r.value]) == key
    decreases n, 0
  {
    if n == 0 then None
    else if Key(signals[n - 1]) == key && Keeps(signals, window, n - 1) then Some(n - 1)
    else LastKept(signals, window, n - 1, key)
  }

  predicate Keeps(signals: seq<Signal>, window: int, i: nat)
    requires i < |signals|
    decreases i, 1
  {
    match LastKept(signals, window, i, Key(signals[i]))
    case None => true
    case Some(p) => Minutes(signals[p].ts, signals[i].ts) > window
  }

  function Kept(signals: seq<Signal>, window: int, n: nat): seq<Signal>
    requires n <= |signals|
  {
    if n == 0 then []
    else Kept(signals, window, n - 1) + (if Keeps(signals, window, n - 1) then [signals[n - 1]] else [])
  }

  function Timeline(flattened: seq<Signal>, window: int): seq<Signal> {
    var signals := Sorting.Sort(NewestFirst, flattened);
    Kept(signals, window, |signals|)
  }

  ghost predicate ByTime(signals: seq<Signal>) {
    forall i, j | 0 <= i < j < |signals| :: signals[i].ts >= signals[j].ts
  }

  lemma {:induction false} LastKeptIsLast(signals: seq<Signal>, window: int, n: nat, i: nat)
    requires i < n <= |signals| && Keeps(signals, window, i)
    ensures var r := LastKept(signals, window, n, Key(signals[i])); r.Some? && r.value >= i
    decreases n
  {
    if i < n - 1 { LastKeptIsLast(signals, window, n - 1, i); }
  }

  lemma {:induction false} LastKeptIsKept(signals: seq<Signal>, window: int, n: nat, key: string)
    requires n <= |signals|
    ensures var r := LastKept(signals, window, n, key); r.Some? ==> Keeps(signals, window, r.value)
    decreases n
  {
    if n > 0 && LastKept(signals, window, n, key) != Some(n - 1) { LastKeptIsKept(signals, window, n - 1, key); }
  }

  /** Kept signals with the same key are further apart than the window. */
  lemma KeptAreApart(signals: seq<Signal>, window: int, i: nat, j: nat)
    requires ByTime(signals) && i < j < |signals|
    requires Keeps(signals, window, i) && Keeps(signals, window, j) && Key(signals[i]) == Key(signals[j])
    ensures !Near(signals[i].ts, signals[j].ts, window)
  {
    LastKeptIsLast(signals, window, j, i);
    var p := LastKept(signals, window, j, Key(signals[j])).value;
    MinutesAreRounded(signals[p].ts, signals[j].ts, window);
  }

  /** Every dropped signal is within the window of a kept one with the same key that is no older. */
  lemma DroppedAreCovered(signals: seq<Signal>, window: int, i: nat)
    requires ByTime(signals) && i < |signals| && !Keeps(signals, window, i)
    ensures var p := LastKept(signals, window, i, Key(signals[i]));
            && p.Some? && Keeps(signals, window, p.value) && Key(signals[p.value]) == Key(signals[i])
            && signals[p.value].ts >= signals[i].ts && Near(signals[p.value].ts, signals[i].ts, window)
  {
    LastKeptIsKept(signals, window, i, Key(signals[i]));
    MinutesAreRounded(signals[LastKept(signals, window, i, Key(signals[i])).value].ts, signals[i].ts, window);
  }

  // ---------------------------------------------------------------- maximality

  /** A selection of signals (by index) in which equal keys are further apart than the window. */
  ghost predicate Spread(signals: seq<Signal>, window: int, s: set<nat>) {
    && (forall i | i in s :: i < |signals|)
    && forall i, j | i in s && j in s && i < j && Key(signals[i]) == Key(signals[j]) ::
         !Near(signals[i].ts, signals[j].ts, window)
  }

  ghost function KeptWithKey(signals: seq<Signal>, window: int, key: string): set<nat> {
    set i: nat | i < |signals| && Keeps(signals, window, i) && Key(signals[i]) == key
  }

  /** The kept signal that stands for signal i. */
  function Cover(signals: seq<Signal>, window: int, i: nat): nat {
    if i >= |signals| || Keeps(signals, window, i) then i
    else LastKept(signals, window, i, Key(signals[i])).GetOr(i)
  }

  lemma CoverInjective(signals: seq<Signal>, window: int, s: set<nat>, i: nat, j: nat)
    requires ByTime(signals) && Spread(signals, window, s) && i in s && j in s && i < j
    requires Key(signals[i]) == Key(signals[j])
    ensures Cover(signals, window, i) != Cover(signals, window, j)
  {
    if Keeps(signals, window, j) {
    } else {
      DroppedAreCovered(signals, window, j);
      var p := Cover(signals, window, j);
      if !Keeps(signals, window, i) { DroppedAreCovered(signals, window, i); }
      var q := Cover(signals, window, i);
    }
  }

  lemma {:induction false} Injects(s: set<nat>, t: set<nat>, f: nat -> nat)
    requires forall x | x in s :: f(x) in t
    requires forall x, y | x in s && y in s && x < y :: f(x) != f(y)
    ensures |s| <= |t|
  {
    if s != {} {
      var x :| x in s;
      Injects(s - {x}, t - {f(x)}, f);
    }
  }

  /** For every key, the timeline keeps as many signals as any selection whose signals with that key
      are pairwise further apart than the window. */
  lemma DedupeIsMaximal(signals: seq<Signal>, window: int, key: string, s: set<nat>)
    requires ByTime(signals) && Spread(signals, window, s)
    requires forall i | i in s :: Key(signals[i]) == key
    ensures Spread(signals, window, KeptWithKey(signals, window, key))
    ensures |s| <= |KeptWithKey(signals, window, key)|
  {
    var t := KeptWithKey(signals, window, key);
    forall i, j | i in t && j in t && i < j ensures !Near(signals[i].ts, signals[j].ts, window) {
      KeptAreApart(signals, window, i, j);
    }
    var f := (i: nat) => Cover(signals, window, i);
    forall i | i in s ensures f(i) in t {
      if !Keeps(signals, window, i) { DroppedAreCovered(signals, window, i); }
    }
    forall i, j | i in s && j in s && i < j ensures f(i) != f(j) {
      CoverInjective(signals, window, s, i, j);
    }
    Injects(s, t, f);
  }

  /** Newer, or at the same instant and no less severe. */
  predicate MayPrecede(a: Signal, b: Signal) {
    a.ts > b.ts || (a.ts == b.ts && AtLeastAsSevere(a.severity, b.severity))
  }

  ghost predicate InOrder(signals: seq<Signal>) {
    forall i, j | 0 <= i < j < |signals| :: MayPrecede(signals[i], signals[j])
  }

  lemma OrderIsExact(a: Signal, b: Signal)
    ensures NewestFirst(a, b) <==> MayPrecede(a, b)
    ensures NewestFirst(a, b) ==> a.ts >= b.ts
  {
  }

  lemma SortedIsInOrder(signals: seq<Signal>)
    requires Sorting.Sorted(NewestFirst, signals)
    ensures InOrder(signals) && ByTime(signals)
  {
    forall i, j | 0 <= i < j < |signals| ensures MayPrecede(signals[i], signals[j]) && signals[i].ts >= signals[j].ts {
      OrderIsExact(signals[i], signals[j]);
    }
  }

  /** The input of the dedupe is the flattened signals, in order; its output stays in that order. */
  lemma TimelineIsNewestFirst(flattened: seq<Signal>, window: int)
    ensures var signals := Sorting.Sort(NewestFirst, flattened);
            && multiset(signals) == multiset(flattened) && ByTime(signals) && InOrder(signals)
            && InOrder(Timeline(flattened, window))
  {
    var signals := Sorting.Sort(NewestFirst, flattened);
    Sorting.SortSorts(NewestFirst, flattened);
    KeptSorted(signals, window, |signals|);
    SortedIsInOrder(signals);
    SortedIsInOrder(Timeline(flattened, window));
  }

  lemma {:induction false} KeptSorted(signals: seq<Signal>, window: int, n: nat)
    requires n <= |signals| && Sorting.Sorted(NewestFirst, signals)
    ensures Sorting.Sorted(NewestFirst, Kept(signals, window, n))
    ensures forall s | s in Kept(signals, window, n) :: exists i | 0 <= i < n :: signals[i] == s
  {
    if n > 0 {
      KeptSorted(signals, window, n - 1);
      var before := Kept(signals, window, n - 1);
      forall k | 0 <= k < |before| ensures NewestFirst(before[k], signals[n - 1]) {
        assert before[k] in before;
        var i :| 0 <= i < n - 1 && signals[i] == before[k];
      }
    }
  }

  // ---------------------------------------------------------------- summary

  datatype Summary = Summary(total: nat, bySeverity: map<Severity, nat>, byCode: map<string, nat>)

  ghost function SumOf<K(!new)>(m: map<K, nat>): nat
    decreases |m|
  {
    if m == map[] then 0
    else
      var k :| k in m;
      m[k] + SumOf(m - {k})
  }

  lemma {:induction false} SumSplit<K(!new)>(m: map<K, nat>, k: K)
    requires k in m
    ensures SumOf(m) == m[k] + SumOf(m - {k})
    decreases |m|
  {
    var c :| c in m && SumOf(m) == m[c] + SumOf(m - {c});
    if c != k {
      SumSplit(m - {c}, k);
      SumSplit(m - {k}, c);
      assert m - {c} - {k} == m - {k} - {c};
    }
  }

  function Tally<K>(m: map<K, nat>, k: K): nat {
    if k in m then m[k] else 0
  }

  lemma SumIncrement<K(!new)>(m: map<K, nat>, k: K)
    ensures SumOf(m[k := Tally(m, k) + 1]) == SumOf(m) + 1
  {
    var m' := m[k := Tally(m, k) + 1];
    SumSplit(m', k);
    assert m' - {k} == m - {k};
    if k in m { SumSplit(m, k); } else { assert m - {k} == m; }
  }

  function CountCode(signals: seq<Signal>, code: string): nat {
    if signals == [] then 0
    else CountCode(signals[..|signals| - 1], code) + (if signals[|signals| - 1].code == code then 1 else 0)
  }

  function CountSeverity(signals: seq<Signal>, severity: Severity): nat {
    if signals == [] then 0
    else
      CountSeverity(signals[..|signals| - 1], severity)
      + (if signals[|signals| - 1].severity == severity then 1 else 0)
  }

  /** The counters of a timeline: each says how often, and both add up to the total. */
  ghost predicate Counts(summary: Summary, timeline: seq<Signal>) {
    && summary.total == |timeline| == SumOf(summary.bySeverity) == SumOf(summary.byCode)
    && (forall v: Severity :: v in summary.bySeverity && summary.bySeverity[v] == CountSeverity(timeline, v))
    && (forall c: string :: Tally(summary.byCode, c) == CountCode(timeline, c))
  }

  const NONE_YET: map<Severity, nat> := map[Critical := 0, High := 0, Medium := 0, Low := 0, Info := 0]

  lemma NoSignals()
    ensures Counts(Summary(0, NONE_YET, map[]), [])
  {
    var m := NONE_YET;
    SumSplit(m, Critical);
    SumSplit(m - {Critical}, High);
    SumSplit(m - {Critical} - {High}, Medium);
    SumSplit(m - {Critical} - {High} - {Medium}, Low);
    SumSplit(m - {Critical} - {High} - {Medium} - {Low}, Info);
    assert m - {Critical} - {High} - {Medium} - {Low} - {Info} == map[];
    forall v: Severity ensures v in m && m[v] == 0 {
      match v case Critical => case High => case Medium => case Low => case Info =>
    }
  }

  lemma CountAppend(timeline: seq<Signal>, s: Signal, code: string, severity: Severity)
    ensures CountCode(timeline + [s], code) == CountCode(timeline, code) + (if s.code == code then 1 else 0)
    ensures CountSeverity(timeline + [s], severity)
         == CountSeverity(timeline, severity) + (if s.severity == severity then 1 else 0)
  {
    assert (timeline + [s])[..|timeline|] == timeline;
  }

  function Bump<K>(m: map<K, nat>, k: K): map<K, nat> {
    m[k := Tally(m, k) + 1]
  }

  /** Counting one more signal. */
  lemma CountsStep(summary: Summary, timeline: seq<Signal>, s: Signal)
    requires Counts(summary, timeline)
    ensures Counts(Summary(summary.total + 1, Bump(summary.bySeverity, s.severity), Bump(summary.byCode, s.code)),
                   timeline + [s])
  {
    SumIncrement(summary.bySeverity, s.severity);
    SumIncrement(summary.byCode, s.code);
    var bySeverity, byCode := Bump(summary.bySeverity, s.severity), Bump(summary.byCode, s.code);
    forall v: Severity
      ensures v in bySeverity && bySeverity[v] == CountSeverity(timeline + [s], v)
    {
      CountAppend(timeline, s, "", v);
    }
    forall c: string ensures Tally(byCode, c) == CountCode(timeline + [s], c) {
      CountAppend(timeline, s, c, Info);
    }
  }

  /** The signals of the first n snapshots, in order; what a snapshot yields is a parameter. */
  function Flattened<S>(snapshots: seq<S>, extract: S -> seq<Signal>, n: nat): seq<Signal>
    requires n <= |snapshots|
  {
    if n == 0 then [] else Flattened(snapshots, extract, n - 1) + extract(snapshots[n - 1])
  }

  /** buildIncidentTimeline */
  method BuildIncidentTimeline<S>(snapshots: seq<S>, extract: S -> seq<Signal>, window: int)
    returns (timeline: seq<Signal>, summary: Summary)
    ensures timeline == Timeline(Flattened(snapshots, extract, |snapshots|), window)
    ensures Counts(summary, timeline)
  {
    var flattened := [];
    for n := 0 to |snapshots|
      invariant flattened == Flattened(snapshots, extract, n)
    {
      flattened := flattened + extract(snapshots[n]);
    }
    var signals := Sorting.Sort(NewestFirst, flattened);
    timeline := Dedupe(signals, window);
    summary := Summarize(timeline);
  }

  method Dedupe(signals: seq<Signal>, window: int) returns (deduped: seq<Signal>)
    ensures deduped == Kept(signals, window, |signals|)
  {
    deduped := [];
    var lastSeenByKey: map<string, int> := map[];
    for n := 0 to |signals|
      invariant deduped == Kept(signals, window, n)
      invariant forall key :: if key in lastSeenByKey
                              then LastKept(signals, window, n, key).Some?
                                   && lastSeenByKey[key] == signals[LastKept(signals, window, n, key).value].ts
                              else LastKept(signals, window, n, key) == None
    {
      var s := signals[n];
      var key := Key(s);
      if key in lastSeenByKey && Minutes(lastSeenByKey[key], s.ts) <= window { continue; }
      deduped := deduped + [s];
      lastSeenByKey := lastSeenByKey[key := s.ts];
    }
  }

  method Summarize(deduped: seq<Signal>) returns (summary: Summary)
    ensures Counts(summary, deduped)
  {
    var bySeverity: map<Severity, nat> := map[Critical := 0, High := 0, Medium := 0, Low := 0, Info := 0];
    var byCode: map<string, nat> := map[];
    NoSignals();
    for n := 0 to |deduped|
      invariant Counts(Summary(n, bySeverity, byCode), deduped[..n])
    {
      var s := deduped[n];
      CountsStep(Summary(n, bySeverity, byCode), deduped[..n], s);
      assert deduped[..n + 1] == deduped[..n] + [s];
      bySeverity := Bump(bySeverity, s.severity);
      byCode := Bump(byCode, s.code);
    }
    assert deduped[..|deduped|] == deduped;
    summary := Summary(|deduped|, bySeverity, byCode);
  }

  // ---------------------------------------------------------------- what the key confuses

  /** A title that contains a bar can give different signals the same key. */
  lemma KeysCanCollide()
    ensures var a := Signal("alert_generic", Medium, "disk", Some("a|b"), FromAlert, 0);
            var b := Signal("alert_generic", Medium, "disk|a", Some("b"), FromAlert, 0);
            Key(a) == Key(b) && (a.title, a.detail) != (b.title, b.detail)
  {
    var a := Signal("alert_generic", Medium, "disk", Some("a|b"), FromAlert, 0);
    var b := Signal("alert_generic", Medium, "disk|a", Some("b"), FromAlert, 0);
    assert a.title != b.title by { assert |a.title| != |b.title|; }
    assert Key(a) == "alert_generic|disk|a|b" == Key(b);
  }

  predicate BarFree(s: string) { '|' !in s }

  /** The texts the key is made of; a missing detail counts as an empty one. */
  predicate SameTexts(a: Signal, b: Signal) {
    a.code == b.code && a.title == b.title && a.detail.GetOr("") == b.detail.GetOr("")
  }

  predicate BarFreeTexts(a: Signal) {
    BarFree(a.code) && BarFree(a.title) && BarFree(a.detail.GetOr(""))
  }

  /** The key identifies code, title and detail of a signal, among all signals, exactly when none of
      the three contains a bar. */
  lemma KeyIdentifiesExactlyWhen(a: Signal)
    ensures (forall b | Key(b) == Key(a) :: SameTexts(a, b)) <==> BarFreeTexts(a)
  {
    if BarFreeTexts(a) {
      forall b | Key(b) == Key(a) ensures SameTexts(a, b) { BarFreeKeyIdentifies(a, b); }
    } else {
      var b := Confused(a);
      assert Key(b) == Key(a) && !SameTexts(a, b);
    }
  }

  lemma BarFreeKeyIdentifies(a: Signal, b: Signal)
    requires BarFreeTexts(a) && Key(a) == Key(b)
    ensures SameTexts(a, b)
  {
    var restA, restB := a.title + "|" + a.detail.GetOr(""), b.title + "|" + b.detail.GetOr("");
    assert Key(a) == a.code + "|" + restA && Key(b) == b.code + "|" + restB;
    BarsOfKey(a);
    BarsOfKey(b);
    FirstBar(a.code, restA, b.code, restB);
    FirstBar(a.title, a.detail.GetOr(""), b.title, b.detail.GetOr(""));
  }

  function Bars(s: string): nat {
    if s == "" then 0 else (if s[0] == '|' then 1 else 0) + Bars(s[1..])
  }

  lemma {:induction false} BarsConcat(s: string, t: string)
    ensures Bars(s + t) == Bars(s) + Bars(t)
  {
    if s == "" {
      assert s + t == t;
    } else {
      BarsConcat(s[1..], t);
      assert (s + t)[1..] == s[1..] + t;
    }
  }

  lemma {:induction false} NoBars(s: string)
    ensures Bars(s) == 0 <==> BarFree(s)
  {
    if s != "" {
      NoBars(s[1..]);
      assert s == [s[0]] + s[1..];
    }
  }

  /** A key has the two bars that join its parts, and those of the parts. */
  lemma BarsOfKey(a: Signal)
    ensures Bars(Key(a)) == 2 + Bars(a.code) + Bars(a.title) + Bars(a.detail.GetOr(""))
    ensures Bars(Key(a)) == 2 <==> BarFreeTexts(a)
  {
    BarsConcat(a.code, "|");
    BarsConcat(a.code + "|", a.title);
    BarsConcat(a.code + "|" + a.title, "|");
    BarsConcat(a.code + "|" + a.title + "|", a.detail.GetOr(""));
    NoBars(a.code);
    NoBars(a.title);
    NoBars(a.detail.GetOr(""));
  }

  lemma SplitAtBar(s: string) returns (before: string, after: string)
    requires !BarFree(s)
    ensures s == before + "|" + after
  {
    var i :| 0 <= i < |s| && s[i] == '|';
    before, after := s[..i], s[i + 1..];
  }

  /** A signal with a bar in one of its texts shares its key with another one, which takes that bar
      for one of the two that join the parts. */
  lemma Confused(a: Signal) returns (b: Signal)
    requires !BarFreeTexts(a)
    ensures Key(b) == Key(a) && !SameTexts(a, b)
  {
    var detail := a.detail.GetOr("");
    if !BarFree(a.code) {
      var before, after := SplitAtBar(a.code);
      b := a.(code := before, title := after, detail := Some(a.title + "|" + detail));
      assert Key(b) == before + "|" + after + "|" + (a.title + "|" + detail) == Key(a);
      assert |b.code| < |a.code|;
    } else if !BarFree(a.title) {
      var before, after := SplitAtBar(a.title);
      b := a.(title := before, detail := Some(after + "|" + detail));
      assert Key(b) == a.code + "|" + before + "|" + (after + "|" + detail) == Key(a);
      assert |b.title| < |a.title|;
    } else {
      var before, after := SplitAtBar(detail);
      b := a.(title := a.title + "|" + before, detail := Some(after));
      assert Key(b) == a.code + "|" + (a.title + "|" + before) + "|" + after == Key(a);
      assert |b.title| > |a.title|;
    }
  }

  lemma {:induction false} FirstBar(a: string, restA: string, b: string, restB: string)
    requires BarFree(a) && BarFree(b) && a + "|" + restA == b + "|" + restB
    ensures a == b && restA == restB
  {
    var s, t := a + "|" + restA, b + "|" + restB;
    assert s[0] == t[0] && s[1..] == t[1..];
    if a != [] && b != [] {
      assert s[1..] == a[1..] + "|" + restA && t[1..] == b[1..] + "|" + restB;
      FirstBar(a[1..], restA, b[1..], restB);
      assert a == [a[0]] + a[1..] && b == [b[0]] + b[1..];
    } else if a == [] && b == [] {
      assert s[1..] == restA && t[1..] == restB;
    }
  }
}
