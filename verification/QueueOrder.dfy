/** Which rows the queue's queries list first (src/lib/remediate/queue.ts): findMany orders by request
    time and takes so many, and the claim picks the first of them that may start. */
module QueueOrder {
  import opened Common
  import opened QueueRuntime
  import opened DrainProtocol
  import Sorting

  // ---------------------------------------------------------------- the query

  datatype Key = Key(requestedAt: int, id: nat)

  /** orderBy requestedAt; runs requested at the same instant come in the order of their creation. */
  predicate OlderFirst(a: Key, b: Key) {
    a.requestedAt < b.requestedAt || (a.requestedAt == b.requestedAt && a.id <= b.id)
  }

  /** The ids below n whose row passes the filter, with the column the query orders by. */
  function Select(rows: seq<Run>, filter: Run -> bool, n: nat): (keys: seq<Key>)
    requires n <= |rows|
    ensures forall k | k in keys :: k.id < n && filter(rows[k.id]) && k.requestedAt == rows[k.id].requestedAt
    ensures forall i | 0 <= i < n && filter(rows[i]) :: Key(rows[i].requestedAt, i) in keys
    ensures forall a, b | 0 <= a < b < |keys| :: keys[a].id != keys[b].id
  {
    if n == 0 then []
    else
      var keys := Select(rows, filter, n - 1);
      if filter(rows[n - 1]) then keys + [Key(rows[n - 1].requestedAt, n - 1)] else keys
  }

  /** findMany with a filter, oldest first. */
  function OldestFirst(rows: seq<Run>, filter: Run -> bool): seq<Key> {
    Sorting.Sort(OlderFirst, Select(rows, filter, |rows|))
  }

  lemma OldestFirstIsTheQuery(rows: seq<Run>, filter: Run -> bool)
    ensures var keys := OldestFirst(rows, filter);
            && Sorting.Sorted(OlderFirst, keys)
            && (forall k | k in keys :: k.id < |rows| && filter(rows[k.id]) && k.requestedAt == rows[k.id].requestedAt)
            && (forall i | 0 <= i < |rows| && filter(rows[i]) :: Key(rows[i].requestedAt, i) in keys)
            && (forall a, b | 0 <= a < b < |keys| :: keys[a].id != keys[b].id)
  {
    var selected := Select(rows, filter, |rows|);
    var keys := OldestFirst(rows, filter);
    Sorting.SortSorts(OlderFirst, selected);
    Sorting.SortKeepsElements(OlderFirst, selected);
    forall a, b | 0 <= a < b < |keys| ensures keys[a].id != keys[b].id {
      assert keys[a] in keys && keys[b] in keys;
    }
  }

  /** The first n of them, as with take. */
  function Oldest(rows: seq<Run>, filter: Run -> bool, n: nat): seq<Key> {
    var keys := OldestFirst(rows, filter);
    keys[..Min(n, |keys|)]
  }

  // ---------------------------------------------------------------- the rank of a row

  /** The rows that pass the filter and were requested earlier, or at the same instant but created
      earlier. */
  ghost function Before(rows: seq<Run>, filter: Run -> bool, i: nat): set<nat>
    requires i < |rows|
  {
    set j: nat | j < |rows| && filter(rows[j])
                 && (rows[j].requestedAt < rows[i].requestedAt || (rows[j].requestedAt == rows[i].requestedAt && j < i))
  }

  ghost function Ids(keys: seq<Key>): set<nat> {
    set k | 0 <= k < |keys| :: keys[k].id
  }

  lemma {:induction false} AsManyIds(keys: seq<Key>)
    requires forall a, b | 0 <= a < b < |keys| :: keys[a].id != keys[b].id
    ensures |Ids(keys)| == |keys|
  {
    if keys != [] {
      var before, last := keys[..|keys| - 1], keys[|keys| - 1];
      AsManyIds(before);
      assert Ids(keys) == Ids(before) + {last.id};
    }
  }

  lemma ComesBefore(keys: seq<Key>, a: nat, b: nat)
    requires a < |keys| && b < |keys| && forall i, j | 0 <= i < j < |keys| :: OlderFirst(keys[i], keys[j])
    requires keys[a].id != keys[b].id && OlderFirst(keys[a], keys[b])
    ensures a < b
  {
  }

  lemma FrontIsPrefix(rows: seq<Run>, filter: Run -> bool, i: nat, k: nat)
    requires i < |rows| && k < |OldestFirst(rows, filter)|
    requires OldestFirst(rows, filter)[k] == Key(rows[i].requestedAt, i)
    ensures Before(rows, filter, i) == Ids(OldestFirst(rows, filter)[..k])
  {
    var keys := OldestFirst(rows, filter);
    OldestFirstIsTheQuery(rows, filter);
    forall j | j in Before(rows, filter, i) ensures j in Ids(keys[..k]) {
      var b :| 0 <= b < |keys| && keys[b] == Key(rows[j].requestedAt, j);
      ComesBefore(keys, b, k);
      assert keys[..k][b].id == j;
    }
    forall j | j in Ids(keys[..k]) ensures j in Before(rows, filter, i) {
      var b :| 0 <= b < k && keys[..k][b].id == j;
      assert keys[b] in keys && OlderFirst(keys[b], keys[k]);
    }
  }

  /** A row that passes is listed after exactly the rows before it. */
  lemma Rank(rows: seq<Run>, filter: Run -> bool, i: nat) returns (k: nat)
    requires i < |rows| && filter(rows[i])
    ensures k < |OldestFirst(rows, filter)| && OldestFirst(rows, filter)[k] == Key(rows[i].requestedAt, i)
    ensures k == |Before(rows, filter, i)|
    ensures Before(rows, filter, i) == Ids(OldestFirst(rows, filter)[..k])
  {
    var keys := OldestFirst(rows, filter);
    OldestFirstIsTheQuery(rows, filter);
    var at :| 0 <= at < |keys| && keys[at] == Key(rows[i].requestedAt, i);
    k := at;
    FrontIsPrefix(rows, filter, i, k);
    AsManyIds(keys[..k]);
  }

  lemma RankIs(rows: seq<Run>, filter: Run -> bool, k: nat)
    requires k < |OldestFirst(rows, filter)|
    ensures var i := OldestFirst(rows, filter)[k].id;
            && i < |rows| && filter(rows[i]) && |Before(rows, filter, i)| == k
            && Before(rows, filter, i) == Ids(OldestFirst(rows, filter)[..k])
  {
    var all := OldestFirst(rows, filter);
    OldestFirstIsTheQuery(rows, filter);
    assert all[k] in all;
    var at := Rank(rows, filter, all[k].id);
    assert at == k;
  }

  /** The query takes exactly the rows that pass the filter with fewer than n such rows before them. */
  lemma TheOldestAreTaken(rows: seq<Run>, filter: Run -> bool, n: nat, i: nat)
    ensures i in Ids(Oldest(rows, filter, n)) <==>
              i < |rows| && filter(rows[i]) && |Before(rows, filter, i)| < n
  {
    var all, taken := OldestFirst(rows, filter), Oldest(rows, filter, n);
    if i in Ids(taken) {
      var k :| 0 <= k < |taken| && taken[k].id == i;
      RankIs(rows, filter, k);
    }
    if i < |rows| && filter(rows[i]) && |Before(rows, filter, i)| < n {
      var k := Rank(rows, filter, i);
      assert taken[k].id == i;
    }
  }

  // ---------------------------------------------------------------- the pick

  predicate IsQueued(r: Run) { r.state == Queued }

  /** The rows claimNextQueuedRun looks at: the 80 oldest queued ones. */
  function Candidates(rows: seq<Run>): seq<Key> { Oldest(rows, IsQueued, 80) }

  function FirstClaimable(rows: seq<Run>, keys: seq<Key>, now: int): Option<nat> {
    if keys == [] then None
    else if keys[0].id < |rows| && Claimable(rows[keys[0].id], now) then Some(keys[0].id)
    else FirstClaimable(rows, keys[1..], now)
  }

  /** The candidate that claimNextQueuedRun goes for. */
  function Pick(rows: seq<Run>, now: int): Option<nat> { FirstClaimable(rows, Candidates(rows), now) }

  /** The run is queued and nothing holds it back: it cannot be read, or it is no dead letter, approved
      if it must be, and due. */
  predicate MayStart(r: Run, now: int) {
    && r.state == Queued
    && (r.params.Readable? ==>
          var q := r.params.payload.queue;
          && !q.dlq
          && (q.approval.required ==> q.approval.status == Approved)
          && (q.nextAttemptAt == None || q.nextAttemptAt.value <= now))
  }

  /** The queued runs requested before run i. */
  ghost function InFront(rows: seq<Run>, i: nat): set<nat>
    requires i < |rows|
  {
    set j: nat | j < |rows| && rows[j].state == Queued
                 && (rows[j].requestedAt < rows[i].requestedAt || (rows[j].requestedAt == rows[i].requestedAt && j < i))
  }

  lemma InFrontAreQueued(rows: seq<Run>, i: nat)
    requires i < |rows|
    ensures InFront(rows, i) == Before(rows, IsQueued, i)
  {
  }

  lemma {:induction false} FirstAt(rows: seq<Run>, keys: seq<Key>, now: int, k: nat)
    requires k < |keys| && keys[k].id < |rows| && MayStart(rows[keys[k].id], now)
    requires forall j | 0 <= j < k :: keys[j].id < |rows| && !MayStart(rows[keys[j].id], now)
    ensures FirstClaimable(rows, keys, now) == Some(keys[k].id)
  {
    if k > 0 { FirstAt(rows, keys[1..], now, k - 1); }
  }

  lemma {:induction false} FirstIs(rows: seq<Run>, keys: seq<Key>, now: int) returns (k: nat)
    requires forall j | 0 <= j < |keys| :: keys[j].id < |rows|
    ensures k <= |keys| && forall j | 0 <= j < k :: !MayStart(rows[keys[j].id], now)
    ensures if k == |keys| then FirstClaimable(rows, keys, now) == None
            else MayStart(rows[keys[k].id], now) && FirstClaimable(rows, keys, now) == Some(keys[k].id)
  {
    if keys == [] || MayStart(rows[keys[0].id], now) {
      k := 0;
    } else {
      var later := FirstIs(rows, keys[1..], now);
      k := later + 1;
      assert forall j | 1 <= j < k :: keys[j] == keys[1..][j - 1];
    }
  }

  lemma CandidatesExist(rows: seq<Run>)
    ensures forall k | 0 <= k < |Candidates(rows)| :: Candidates(rows)[k].id < |rows|
  {
    var all := OldestFirst(rows, IsQueued);
    OldestFirstIsTheQuery(rows, IsQueued);
    forall k | 0 <= k < |Candidates(rows)| ensures Candidates(rows)[k].id < |rows| { assert all[k] in all; }
  }

  lemma PickIsClaimable(rows: seq<Run>, now: int)
    ensures var next := Pick(rows, now); next.Some? ==> next.value < |rows| && Claimable(rows[next.value], now)
  {
    CandidatesExist(rows);
    var first := FirstIs(rows, Candidates(rows), now);
  }

  /** The claim goes for run i exactly when the run may start, fewer than 80 queued runs are in front of
      it, and none of those may start. */
  lemma PickedExactlyWhen(rows: seq<Run>, now: int, i: nat)
    ensures Pick(rows, now) == Some(i) <==>
              && i < |rows| && MayStart(rows[i], now) && |InFront(rows, i)| < 80
              && forall j | j in InFront(rows, i) :: !MayStart(rows[j], now)
  {
    var all, keys := OldestFirst(rows, IsQueued), Candidates(rows);
    CandidatesExist(rows);
    var first := FirstIs(rows, keys, now);
    if Pick(rows, now) == Some(i) {
      RankIs(rows, IsQueued, first);
      InFrontAreQueued(rows, i);
    }
    if i < |rows| && MayStart(rows[i], now) && |InFront(rows, i)| < 80
       && forall j | j in InFront(rows, i) :: !MayStart(rows[j], now) {
      InFrontAreQueued(rows, i);
      var k := Rank(rows, IsQueued, i);
      forall j | 0 <= j < k ensures keys[j].id < |rows| && !MayStart(rows[keys[j].id], now) {
        assert all[..k][j].id == keys[j].id;
        assert keys[j].id in InFront(rows, i);
      }
      FirstAt(rows, keys, now, k);
    }
  }

  /** The claim overlooks every run that may start, and so does nothing, exactly when each has 80 queued
      runs in front of it. */
  lemma NothingIsPickedExactlyWhen(rows: seq<Run>, now: int)
    ensures Pick(rows, now) == None <==>
              forall i: nat | i < |rows| && MayStart(rows[i], now) :: |InFront(rows, i)| >= 80
  {
    var keys := Candidates(rows);
    CandidatesExist(rows);
    var first := FirstIs(rows, keys, now);
    forall i: nat | i < |rows| && MayStart(rows[i], now) && |InFront(rows, i)| < 80 ensures Pick(rows, now) != None {
      InFrontAreQueued(rows, i);
      var k := Rank(rows, IsQueued, i);
      assert keys[k].id == i;
    }
    if Pick(rows, now) != None {
      RankIs(rows, IsQueued, first);
      InFrontAreQueued(rows, keys[first].id);
    }
  }
}
