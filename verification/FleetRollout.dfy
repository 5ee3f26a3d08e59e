/** The stages of a fleet rollout: one host of every group first, then the rest
    (src/lib/remediate/fleet-policy.ts). Group keys are ordered by an abstract collation. */
module FleetRollout {
  import opened Common
  import opened FleetPolicy
  import Sorting

  datatype Strategy = GroupCanary | Sequential

  function CeilDiv(n: nat, size: nat): nat
    requires size > 0
  {
    (n + size - 1) / size
  }

  function Flatten<T>(stages: seq<seq<T>>): seq<T> {
    if stages == [] then [] else stages[0] + Flatten(stages[1..])
  }

  function Chunks<T>(items: seq<T>, size: nat): seq<seq<T>>
    requires size > 0
  {
    if items == [] then []
    else
      var k := Min(size, |items|);
      [items[..k]] + Chunks(items[k..], size)
  }

  /** Cutting into stages keeps every item in order, in as few stages as the size allows. */
  lemma {:induction false} ChunksShape<T>(items: seq<T>, size: nat)
    requires size > 0
    ensures Flatten(Chunks(items, size)) == items
    ensures |Chunks(items, size)| == CeilDiv(|items|, size)
    ensures forall i | 0 <= i < |Chunks(items, size)| :: 1 <= |Chunks(items, size)[i]| <= size
  {
    if items != [] {
      var k := Min(size, |items|);
      ChunksShape(items[k..], size);
      CeilStep(|items|, size);
      assert items[..k] + items[k..] == items;
    }
  }

  lemma CeilStep(n: nat, size: nat)
    requires size > 0 && n > 0
    ensures CeilDiv(n, size) == 1 + CeilDiv(n - Min(size, n), size)
  {
    if n > size { QuotientStep(n - 1, size); }
    else { QuotientStep(n - 1, size); Quotient(n - 1, 0, n - 1, size); Quotient(size - 1, 0, size - 1, size); }
  }

  lemma QuotientStep(a: nat, d: nat)
    requires d > 0
    ensures (a + d) / d == a / d + 1
  {
    Quotient(a + d, a / d + 1, a % d, d);
  }

  lemma Quotient(x: nat, q: nat, r: nat, d: nat)
    requires d > 0 && x == q * d + r && r < d
    ensures x / d == q
  {
    var p := x / d;
    var s := x % d;
    assert x == p * d + s;
    assert p < q ==> (p + 1) * d <= q * d;
    assert q < p ==> (q + 1) * d <= p * d;
  }

  /** chunk */
  method Chunk<T>(items: seq<T>, size: nat) returns (out: seq<seq<T>>)
    requires size > 0
    ensures out == Chunks(items, size)
  {
    out := [];
    var i := 0;
    while i < |items|
      invariant i <= |items|
      invariant out + Chunks(items[i..], size) == Chunks(items, size)
    {
      var next := Min(i + size, |items|);
      ghost var rest := items[i..];
      assert rest[..Min(size, |rest|)] == items[i..next] && rest[Min(size, |rest|)..] == items[next..];
      out := out + [items[i..next]];
      i := next;
    }
  }

  // ---------------------------------------------------------------- the two waves

  function OfGroup(hosts: seq<Host>, key: string): seq<Host> {
    if hosts == [] then []
    else OfGroup(hosts[..|hosts| - 1], key)
         + (if GroupKey(hosts[|hosts| - 1]) == key then [hosts[|hosts| - 1]] else [])
  }

  /** The group keys in order of first appearance, as a Map lists them. */
  function KeysOf(hosts: seq<Host>): (keys: seq<string>)
    ensures forall a, b | 0 <= a < b < |keys| :: keys[a] != keys[b]
  {
    if hosts == [] then []
    else
      var keys := KeysOf(hosts[..|hosts| - 1]);
      var key := GroupKey(hosts[|hosts| - 1]);
      if key in keys then keys else keys + [key]
  }

  lemma {:induction false} GroupsNonEmpty(hosts: seq<Host>, key: string)
    ensures key in KeysOf(hosts) <==> OfGroup(hosts, key) != []
    ensures forall h | h in OfGroup(hosts, key) :: GroupKey(h) == key && h in hosts
  {
    if hosts != [] {
      GroupsNonEmpty(hosts[..|hosts| - 1], key);
    }
  }

  /** The first host of every group, group by group. */
  function CanaryWave(hosts: seq<Host>, keys: seq<string>): seq<Host> {
    if keys == [] then []
    else
      var arr := OfGroup(hosts, keys[|keys| - 1]);
      CanaryWave(hosts, keys[..|keys| - 1]) + (if arr == [] then [] else [arr[0]])
  }

  /** Everyone else, group by group. */
  function Remainder(hosts: seq<Host>, keys: seq<string>): seq<Host> {
    if keys == [] then []
    else
      var arr := OfGroup(hosts, keys[|keys| - 1]);
      Remainder(hosts, keys[..|keys| - 1]) + (if arr == [] then [] else arr[1..])
  }

  function SortedKeys(hosts: seq<Host>, le: (string, string) -> bool): seq<string> {
    Sorting.Sort(le, KeysOf(hosts))
  }

  function Stages(hosts: seq<Host>, stageSize: int, strategy: Strategy, le: (string, string) -> bool): seq<seq<Host>> {
    var size := ClampInt(stageSize, 1, 100);
    if strategy == Sequential then Chunks(hosts, size)
    else
      var keys := SortedKeys(hosts, le);
      Chunks(CanaryWave(hosts, keys), size) + Chunks(Remainder(hosts, keys), size)
  }

  // ---------------------------------------------------------------- nobody lost, nobody twice

  lemma {:induction false} OfGroupMultiplicity(hosts: seq<Host>, key: string, h: Host)
    ensures multiset(OfGroup(hosts, key))[h] == if GroupKey(h) == key then multiset(hosts)[h] else 0
  {
    if hosts != [] {
      var before := hosts[..|hosts| - 1];
      OfGroupMultiplicity(before, key, h);
      assert hosts == before + [hosts[|hosts| - 1]];
    }
  }

  lemma WavesStep(hosts: seq<Host>, keys: seq<string>, key: string)
    ensures multiset(CanaryWave(hosts, keys + [key])) + multiset(Remainder(hosts, keys + [key]))
            == multiset(CanaryWave(hosts, keys)) + multiset(Remainder(hosts, keys)) + multiset(OfGroup(hosts, key))
  {
    var arr := OfGroup(hosts, key);
    assert (keys + [key])[..|keys|] == keys;
    if arr != [] {
      assert arr == [arr[0]] + arr[1..];
      assert CanaryWave(hosts, keys + [key]) == CanaryWave(hosts, keys) + [arr[0]];
      assert Remainder(hosts, keys + [key]) == Remainder(hosts, keys) + arr[1..];
    }
  }

  lemma {:induction false} WavesMultiplicity(hosts: seq<Host>, keys: seq<string>, h: Host)
    requires forall a, b | 0 <= a < b < |keys| :: keys[a] != keys[b]
    ensures (multiset(CanaryWave(hosts, keys)) + multiset(Remainder(hosts, keys)))[h]
            == if GroupKey(h) in keys then multiset(hosts)[h] else 0
  {
    if keys != [] {
      var before := keys[..|keys| - 1];
      var key := keys[|keys| - 1];
      assert keys == before + [key];
      WavesMultiplicity(hosts, before, h);
      OfGroupMultiplicity(hosts, key, h);
      WavesStep(hosts, before, key);
    }
  }

  /** The two waves together are the hosts, rearranged. */
  lemma WavesPermute(hosts: seq<Host>, keys: seq<string>)
    requires forall a, b | 0 <= a < b < |keys| :: keys[a] != keys[b]
    requires forall k | k in KeysOf(hosts) :: k in keys
    ensures multiset(CanaryWave(hosts, keys) + Remainder(hosts, keys)) == multiset(hosts)
    ensures |CanaryWave(hosts, keys)| + |Remainder(hosts, keys)| == |hosts|
  {
    var both := multiset(CanaryWave(hosts, keys)) + multiset(Remainder(hosts, keys));
    forall h ensures both[h] == multiset(hosts)[h] {
      WavesMultiplicity(hosts, keys, h);
      if h in hosts { KeysComplete(hosts, h); }
    }
    assert both == multiset(hosts);
    assert |multiset(CanaryWave(hosts, keys) + Remainder(hosts, keys))| == |multiset(hosts)|;
  }

  lemma {:induction false} KeysComplete(hosts: seq<Host>, h: Host)
    requires h in hosts
    ensures GroupKey(h) in KeysOf(hosts)
  {
    var last := hosts[|hosts| - 1];
    assert hosts == hosts[..|hosts| - 1] + [last];
    if h in hosts[..|hosts| - 1] { KeysComplete(hosts[..|hosts| - 1], h); }
  }

  lemma SortedKeysSame(hosts: seq<Host>, le: (string, string) -> bool)
    requires Sorting.TotalPreorder(le)
    ensures var keys := SortedKeys(hosts, le);
            && |keys| == |KeysOf(hosts)|
            && (forall k :: k in keys <==> k in KeysOf(hosts))
            && (forall a, b | 0 <= a < b < |keys| :: keys[a] != keys[b])
            && |CanaryWave(hosts, keys)| == |keys|
            && forall i | 0 <= i < |keys| ::
                 OfGroup(hosts, keys[i]) != [] && CanaryWave(hosts, keys)[i] == OfGroup(hosts, keys[i])[0]
  {
    var keys := SortedKeys(hosts, le);
    Sorting.SortKeepsElements(le, KeysOf(hosts));
    forall k | k in keys ensures OfGroup(hosts, k) != [] { GroupsNonEmpty(hosts, k); }
    CanaryWaveLength(hosts, keys);
  }

  lemma {:induction false} FlattenConcat<T>(a: seq<seq<T>>, b: seq<seq<T>>)
    ensures Flatten(a + b) == Flatten(a) + Flatten(b)
  {
    if a == [] {
      assert a + b == b;
    } else {
      FlattenConcat(a[1..], b);
      assert (a + b)[1..] == a[1..] + b;
    }
  }

  lemma {:induction false} CanaryWaveLength(hosts: seq<Host>, keys: seq<string>)
    requires forall k | k in keys :: OfGroup(hosts, k) != []
    ensures |CanaryWave(hosts, keys)| == |keys|
    ensures forall i | 0 <= i < |keys| :: CanaryWave(hosts, keys)[i] == OfGroup(hosts, keys[i])[0]
  {
    if keys != [] {
      var before, last := keys[..|keys| - 1], keys[|keys| - 1];
      assert last in keys;
      CanaryWaveLength(hosts, before);
      assert CanaryWave(hosts, keys) == CanaryWave(hosts, before) + [OfGroup(hosts, last)[0]];
    }
  }

  /** A rollout touches every host exactly once, in stages of 1 to size hosts; sequential stages
      keep the input order; group-canary stages number ceil(G / size) + ceil((n - G) / size) for
      G groups. */
  lemma StagesCoverEveryHostOnce(hosts: seq<Host>, stageSize: int, strategy: Strategy,
                                 le: (string, string) -> bool)
    requires Sorting.TotalPreorder(le)
    ensures var stages := Stages(hosts, stageSize, strategy, le);
            var size := Max(1, Min(stageSize, 100));
            var groups := |KeysOf(hosts)|;
            && multiset(Flatten(stages)) == multiset(hosts)
            && (forall i | 0 <= i < |stages| :: 1 <= |stages[i]| <= size)
            && (strategy == Sequential ==> Flatten(stages) == hosts && |stages| == CeilDiv(|hosts|, size))
            && (strategy == GroupCanary ==>
                  groups <= |hosts| && |stages| == CeilDiv(groups, size) + CeilDiv(|hosts| - groups, size))
  {
    var size := ClampInt(stageSize, 1, 100);
    if strategy == Sequential {
      ChunksShape(hosts, size);
    } else {
      GroupCanaryStages(hosts, size, SortedKeys(hosts, le), le);
    }
  }

  lemma GroupCanaryStages(hosts: seq<Host>, size: nat, keys: seq<string>, le: (string, string) -> bool)
    requires size > 0 && Sorting.TotalPreorder(le) && keys == SortedKeys(hosts, le)
    ensures var stages := Chunks(CanaryWave(hosts, keys), size) + Chunks(Remainder(hosts, keys), size);
            var groups := |KeysOf(hosts)|;
            && multiset(Flatten(stages)) == multiset(hosts)
            && groups <= |hosts| && |stages| == CeilDiv(groups, size) + CeilDiv(|hosts| - groups, size)
            && forall i | 0 <= i < |stages| :: 1 <= |stages[i]| <= size
  {
    SortedKeysSame(hosts, le);
    WavesPermute(hosts, keys);
    TwoWaves(CanaryWave(hosts, keys), Remainder(hosts, keys), size);
  }

  lemma TwoWaves(a: seq<Host>, b: seq<Host>, size: nat)
    requires size > 0
    ensures var stages := Chunks(a, size) + Chunks(b, size);
            && Flatten(stages) == a + b
            && |stages| == CeilDiv(|a|, size) + CeilDiv(|b|, size)
            && forall i | 0 <= i < |stages| :: 1 <= |stages[i]| <= size
  {
    ChunksShape(a, size);
    ChunksShape(b, size);
    FlattenConcat(Chunks(a, size), Chunks(b, size));
  }

  // ---------------------------------------------------------------- canaries go first

  /** One of the stages contains the host. */
  predicate Reached(stages: seq<seq<Host>>, h: Host) {
    exists j | 0 <= j < |stages| :: h in stages[j]
  }

  lemma {:induction false} InSomeStage(stages: seq<seq<Host>>, x: Host)
    requires x in Flatten(stages)
    ensures Reached(stages, x)
  {
    if x in stages[0] {
    } else {
      InSomeStage(stages[1..], x);
      var j :| 0 <= j < |stages[1..]| && x in stages[1..][j];
      assert x in stages[j + 1];
    }
  }

  lemma {:induction false} StageInFlatten<T>(stages: seq<seq<T>>, i: nat, x: T)
    requires i < |stages| && x in stages[i]
    ensures x in Flatten(stages)
  {
    if i > 0 { StageInFlatten(stages[1..], i - 1, x); }
  }

  lemma {:induction false} RemainderGroups(hosts: seq<Host>, keys: seq<string>, h: Host)
    requires h in Remainder(hosts, keys)
    ensures GroupKey(h) in keys && h in OfGroup(hosts, GroupKey(h))
  {
    var before := keys[..|keys| - 1];
    var arr := OfGroup(hosts, keys[|keys| - 1]);
    if h in Remainder(hosts, before) {
      RemainderGroups(hosts, before, h);
    } else {
      GroupsNonEmpty(hosts, keys[|keys| - 1]);
      assert h in arr;
    }
  }

  /** The first ceil(G / size) stages hold the first host of every group and nobody else; every
      other host comes in a strictly later stage than the first host of its group. */
  lemma CanariesGoFirst(hosts: seq<Host>, stageSize: int, le: (string, string) -> bool, i: nat,
                        h: Host)
    requires Sorting.TotalPreorder(le)
    requires i < |Stages(hosts, stageSize, GroupCanary, le)| && h in Stages(hosts, stageSize, GroupCanary, le)[i]
    ensures var stages := Stages(hosts, stageSize, GroupCanary, le);
            var canaryStages := CeilDiv(|KeysOf(hosts)|, Max(1, Min(stageSize, 100)));
            var arr := OfGroup(hosts, GroupKey(h));
            && arr != []
            && if i < canaryStages then h == arr[0]
               else canaryStages <= |stages| && Reached(stages[..canaryStages], arr[0])
  {
    var size := ClampInt(stageSize, 1, 100);
    var keys := SortedKeys(hosts, le);
    var first := Chunks(CanaryWave(hosts, keys), size);
    SortedKeysSame(hosts, le);
    ChunksShape(CanaryWave(hosts, keys), size);
    if i < |first| {
      CanaryStage(hosts, keys, size, i, h);
    } else {
      LaterStage(hosts, keys, size, i - |first|, h);
      assert Stages(hosts, stageSize, GroupCanary, le)[..|first|] == first;
    }
  }

  /** keys lists every group of the hosts, and each has a first host. */
  predicate CanaryKeys(hosts: seq<Host>, keys: seq<string>) {
    && |CanaryWave(hosts, keys)| == |keys|
    && forall i | 0 <= i < |keys| ::
         OfGroup(hosts, keys[i]) != [] && CanaryWave(hosts, keys)[i] == OfGroup(hosts, keys[i])[0]
  }

  lemma CanaryStage(hosts: seq<Host>, keys: seq<string>, size: nat, i: nat, h: Host)
    requires size > 0 && CanaryKeys(hosts, keys)
    requires i < |Chunks(CanaryWave(hosts, keys), size)| && h in Chunks(CanaryWave(hosts, keys), size)[i]
    ensures OfGroup(hosts, GroupKey(h)) != [] && h == OfGroup(hosts, GroupKey(h))[0]
  {
    var canary := CanaryWave(hosts, keys);
    ChunksShape(canary, size);
    StageInFlatten(Chunks(canary, size), i, h);
    var p :| 0 <= p < |keys| && canary[p] == h;
    GroupsNonEmpty(hosts, keys[p]);
    assert h in OfGroup(hosts, keys[p]);
  }

  lemma LaterStage(hosts: seq<Host>, keys: seq<string>, size: nat, i: nat, h: Host)
    requires size > 0 && CanaryKeys(hosts, keys)
    requires i < |Chunks(Remainder(hosts, keys), size)| && h in Chunks(Remainder(hosts, keys), size)[i]
    ensures var first := Chunks(CanaryWave(hosts, keys), size);
            && OfGroup(hosts, GroupKey(h)) != []
            && Reached(first, OfGroup(hosts, GroupKey(h))[0])
  {
    var canary, rest := CanaryWave(hosts, keys), Remainder(hosts, keys);
    ChunksShape(canary, size);
    ChunksShape(rest, size);
    StageInFlatten(Chunks(rest, size), i, h);
    RemainderGroups(hosts, keys, h);
    var p :| 0 <= p < |keys| && keys[p] == GroupKey(h);
    assert canary[p] == OfGroup(hosts, GroupKey(h))[0];
    assert canary[p] in canary;
    InSomeStage(Chunks(canary, size), canary[p]);
  }

  // ---------------------------------------------------------------- the order of the waves

  lemma OfGroupAppend(hosts: seq<Host>, h: Host, key: string)
    ensures OfGroup(hosts + [h], key) == OfGroup(hosts, key) + if GroupKey(h) == key then [h] else []
  {
    assert (hosts + [h])[..|hosts|] == hosts;
  }

  lemma OneMoreConcat(a: seq<Host>, before: seq<Host>, last: Host, key: string)
    requires OfGroup(a + before, key) == OfGroup(a, key) + OfGroup(before, key)
    ensures OfGroup(a + (before + [last]), key) == OfGroup(a, key) + OfGroup(before + [last], key)
  {
    var whole := a + before;
    assert a + (before + [last]) == whole + [last];
    OfGroupAppend(whole, last, key);
    OfGroupAppend(before, last, key);
  }

  lemma {:induction false} OfGroupConcat(a: seq<Host>, b: seq<Host>, key: string)
    ensures OfGroup(a + b, key) == OfGroup(a, key) + OfGroup(b, key)
  {
    if b == [] {
      assert a + b == a;
    } else {
      var before, last := b[..|b| - 1], b[|b| - 1];
      OfGroupConcat(a, before, key);
      OneMoreConcat(a, before, last, key);
      assert b == before + [last];
    }
  }

  lemma {:induction false} OfOneGroup(hosts: seq<Host>, own: string, key: string)
    requires forall h | h in multiset(hosts) :: GroupKey(h) == own
    ensures OfGroup(hosts, key) == if own == key then hosts else []
  {
    if hosts == [] {
    } else {
      var before, last := hosts[..|hosts| - 1], hosts[|hosts| - 1];
      assert hosts == before + [last];
      assert last in multiset(hosts) && multiset(before) <= multiset(hosts);
      OfOneGroup(before, own, key);
      OfGroupAppend(before, last, key);
    }
  }

  function RestOfGroup(hosts: seq<Host>, key: string): seq<Host> {
    var arr := OfGroup(hosts, key);
    if arr == [] then [] else arr[1..]
  }

  lemma RestIsOfGroup(hosts: seq<Host>, own: string, key: string)
    ensures OfGroup(RestOfGroup(hosts, own), key) == if own == key then RestOfGroup(hosts, own) else []
  {
    var arr, rest := OfGroup(hosts, own), RestOfGroup(hosts, own);
    GroupsNonEmpty(hosts, own);
    assert forall h | h in multiset(rest) :: h in arr;
    OfOneGroup(rest, own, key);
  }

  lemma RemainderStep(hosts: seq<Host>, before: seq<string>, last: string, key: string)
    requires OfGroup(Remainder(hosts, before), key) == if key in before then RestOfGroup(hosts, key) else []
    requires last !in before
    ensures OfGroup(Remainder(hosts, before + [last]), key)
         == if key in before + [last] then RestOfGroup(hosts, key) else []
  {
    assert (before + [last])[..|before|] == before;
    assert Remainder(hosts, before + [last]) == Remainder(hosts, before) + RestOfGroup(hosts, last);
    OfGroupConcat(Remainder(hosts, before), RestOfGroup(hosts, last), key);
    RestIsOfGroup(hosts, last, key);
    assert key in before + [last] <==> key in before || key == last;
  }

  ghost predicate Distinct(keys: seq<string>) {
    forall a, b | 0 <= a < b < |keys| :: keys[a] != keys[b]
  }

  lemma DistinctButLast(keys: seq<string>)
    requires Distinct(keys) && keys != []
    ensures Distinct(keys[..|keys| - 1]) && keys[|keys| - 1] !in keys[..|keys| - 1]
  {
  }

  /** Within a group, the rest comes in the order of the input. */
  lemma {:induction false} RemainderKeepsOrder(hosts: seq<Host>, keys: seq<string>, key: string)
    requires Distinct(keys)
    ensures OfGroup(Remainder(hosts, keys), key) == if key in keys then RestOfGroup(hosts, key) else []
  {
    if keys != [] {
      var before, last := keys[..|keys| - 1], keys[|keys| - 1];
      DistinctButLast(keys);
      RemainderKeepsOrder(hosts, before, key);
      RemainderStep(hosts, before, last, key);
      assert keys == before + [last];
    }
  }

  /** No later host is of an earlier group. */
  ghost predicate ByGroup(hosts: seq<Host>, le: (string, string) -> bool) {
    forall a, b | 0 <= a < b < |hosts| :: le(GroupKey(hosts[a]), GroupKey(hosts[b]))
  }

  lemma {:induction false} RemainderByGroup(hosts: seq<Host>, keys: seq<string>, le: (string, string) -> bool)
    requires Sorting.TotalPreorder(le) && Sorting.Sorted(le, keys)
    ensures ByGroup(Remainder(hosts, keys), le)
  {
    if keys != [] {
      var before, last := keys[..|keys| - 1], keys[|keys| - 1];
      RemainderByGroup(hosts, before, le);
      GroupsNonEmpty(hosts, last);
      forall h | h in Remainder(hosts, before) ensures le(GroupKey(h), last) {
        RemainderGroups(hosts, before, h);
        var i :| 0 <= i < |before| && before[i] == GroupKey(h);
        assert keys[i] == before[i];
      }
    }
  }

  /** Both waves go group by group in the order of the group names: first the first host of every group,
      then the rest, within each group in the order of the input. */
  lemma WavesGoByGroup(hosts: seq<Host>, stageSize: int, le: (string, string) -> bool, key: string)
    requires Sorting.TotalPreorder(le)
    ensures var waves := Flatten(Stages(hosts, stageSize, GroupCanary, le));
            var groups := |KeysOf(hosts)|;
            && groups <= |waves| && ByGroup(waves[..groups], le) && ByGroup(waves[groups..], le)
            && OfGroup(waves[groups..], key) == RestOfGroup(hosts, key)
  {
    var keys := SortedKeys(hosts, le);
    var first, rest := CanaryWave(hosts, keys), Remainder(hosts, keys);
    SortedKeysSame(hosts, le);
    Sorting.SortSorts(le, KeysOf(hosts));
    TwoWaves(first, rest, ClampInt(stageSize, 1, 100));
    assert (first + rest)[..|first|] == first && (first + rest)[|first|..] == rest;
    forall i | 0 <= i < |first| ensures GroupKey(first[i]) == keys[i] { GroupsNonEmpty(hosts, keys[i]); }
    RemainderByGroup(hosts, keys, le);
    RemainderKeepsOrder(hosts, keys, key);
    GroupsNonEmpty(hosts, key);
  }

  // ---------------------------------------------------------------- the loop

  /** The Map of host lists, and its keys in insertion order. */
  method GroupHosts(hosts: seq<Host>) returns (grouped: map<string, seq<Host>>, keys: seq<string>)
    ensures keys == KeysOf(hosts)
    ensures forall k :: Group(grouped, k) == OfGroup(hosts, k)
  {
    grouped, keys := map[], [];
    for i := 0 to |hosts|
      invariant keys == KeysOf(hosts[..i])
      invariant forall k :: Group(grouped, k) == OfGroup(hosts[..i], k)
    {
      var host := hosts[i];
      var key := GroupKey(host);
      assert hosts[..i + 1][..i] == hosts[..i];
      if key !in keys { keys := keys + [key]; }
      grouped := grouped[key := Group(grouped, key) + [host]];
    }
    assert hosts[..|hosts|] == hosts;
  }

  lemma WavePrefix(hosts: seq<Host>, keys: seq<string>, i: nat)
    requires i < |keys|
    ensures var arr := OfGroup(hosts, keys[i]);
            && CanaryWave(hosts, keys[..i + 1]) == CanaryWave(hosts, keys[..i]) + (if arr == [] then [] else [arr[0]])
            && Remainder(hosts, keys[..i + 1]) == Remainder(hosts, keys[..i]) + (if arr == [] then [] else arr[1..])
  {
    assert keys[..i + 1][..i] == keys[..i];
  }

  /** The canary loop, which shifts the first host off every list, and the loop over the rest. */
  method SplitWaves(ghost hosts: seq<Host>, grouped: map<string, seq<Host>>, groupKeys: seq<string>)
    returns (canaryWave: seq<Host>, remaining: seq<Host>)
    requires forall k :: Group(grouped, k) == OfGroup(hosts, k)
    ensures canaryWave == CanaryWave(hosts, groupKeys)
    ensures remaining == Remainder(hosts, groupKeys)
  {
    canaryWave, remaining := [], [];
    for i := 0 to |groupKeys|
      invariant canaryWave == CanaryWave(hosts, groupKeys[..i])
    {
      WavePrefix(hosts, groupKeys, i);
      var arr := Group(grouped, groupKeys[i]);
      if arr != [] { canaryWave := canaryWave + [arr[0]]; }
    }
    for i := 0 to |groupKeys|
      invariant remaining == Remainder(hosts, groupKeys[..i])
    {
      WavePrefix(hosts, groupKeys, i);
      var arr := Group(grouped, groupKeys[i]);
      if arr != [] { remaining := remaining + arr[1..]; }
    }
    assert groupKeys[..|groupKeys|] == groupKeys;
  }

  lemma NoHostsNoStages(stageSize: int, strategy: Strategy, le: (string, string) -> bool)
    ensures Stages([], stageSize, strategy, le) == []
  {
    assert KeysOf([]) == [] && SortedKeys([], le) == [];
  }

  /** buildFleetRolloutStages */
  method BuildFleetRolloutStages(hosts: seq<Host>, stageSize: int, strategy: Strategy, le: (string, string) -> bool)
    returns (waves: seq<seq<Host>>)
    ensures waves == Stages(hosts, stageSize, strategy, le)
  {
    var size := ClampInt(stageSize, 1, 100);
    if |hosts| == 0 {
      NoHostsNoStages(stageSize, strategy, le);
      return [];
    }
    if strategy == Sequential {
      waves := Chunk(hosts, size);
      return;
    }
    var grouped, insertionOrder := GroupHosts(hosts);
    var groupKeys := Sorting.Sort(le, insertionOrder);
    var canaryWave, remaining := SplitWaves(hosts, grouped, groupKeys);
    waves := ChunkWaves(canaryWave, remaining, size);
  }

  /** Stages of a wave only when there is one. */
  method ChunkWaves(canaryWave: seq<Host>, remaining: seq<Host>, size: nat) returns (waves: seq<seq<Host>>)
    requires size > 0
    ensures waves == Chunks(canaryWave, size) + Chunks(remaining, size)
  {
    waves := [];
    if |canaryWave| > 0 { waves := Chunk(canaryWave, size); }
    if |remaining| > 0 {
      var more := Chunk(remaining, size);
      waves := waves + more;
    }
  }

  function Group(grouped: map<string, seq<Host>>, key: string): seq<Host> {
    if key in grouped then grouped[key] else []
  }
}
