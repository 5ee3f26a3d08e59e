/** Fleet rollout: which hosts a remediation may touch, and in which stages
    (src/lib/remediate/fleet-policy.ts). */
module FleetPolicy {
  import opened Common
  import Sorting

  datatype Host = Host(id: string, group: Option<string>)

  datatype RejectReason = MaxHosts | MaxPerGroup

  datatype Rejection = Rejection(hostId: string, reason: RejectReason)

  function GroupKey(h: Host): string {
    if h.group.Some? then h.group.value else "__ungrouped"
  }

  // ---------------------------------------------------------------- blast-radius selection

  datatype Caps = Caps(total: nat, perGroup: nat)

  /** The caps the safeguards compute from their inputs. */
  function EffectiveCaps(totalEnabledFleet: int, maxHosts: int, maxPerGroup: int, maxPercent: int): (c: Caps)
    ensures 1 <= c.total <= 500 && 1 <= c.perGroup <= 200
    ensures c.total == 1 || 100 * c.total <= totalEnabledFleet * ClampInt(maxPercent, 1, 100)
  {
    var percent := ClampInt(maxPercent, 1, 100);
    var allowedByPercent := Max(1, Max(1, totalEnabledFleet) * percent / 100);
    Caps(Min(ClampInt(maxHosts, 1, 500), allowedByPercent), ClampInt(maxPerGroup, 1, 200))
  }

  /** So many hosts are within both limits of the caller: the number, from 1 to 500, and the percentage
      of the enabled fleet, from 1 to 100, which always leaves room for one. */
  predicate Allowed(n: int, totalEnabledFleet: int, maxHosts: int, maxPercent: int) {
    n <= Max(1, Min(maxHosts, 500)) && (n <= 1 || 100 * n <= totalEnabledFleet * Max(1, Min(maxPercent, 100)))
  }

  /** The total cap is the largest number of hosts that is allowed, the cap for each group is what the
      caller says, from 1 to 200. */
  lemma CapsAreExact(totalEnabledFleet: int, maxHosts: int, maxPerGroup: int, maxPercent: int, n: int)
    ensures var caps := EffectiveCaps(totalEnabledFleet, maxHosts, maxPerGroup, maxPercent);
            && (Allowed(n, totalEnabledFleet, maxHosts, maxPercent) <==> n <= caps.total)
            && caps.perGroup == Max(1, Min(maxPerGroup, 200))
  {
    var percent := ClampInt(maxPercent, 1, 100);
    var share := Max(1, totalEnabledFleet) * percent;
    if totalEnabledFleet < 1 { NoShare(totalEnabledFleet, percent); }
  }

  lemma NoShare(fleet: int, percent: int)
    requires fleet < 1 && 1 <= percent <= 100
    ensures fleet * percent <= 0
  {
  }

  /** A selection marks every host as taken or not; this counts those taken among the first n. */
  function Taken(marks: seq<bool>, n: nat): (k: nat)
    requires n <= |marks|
    ensures k <= n
  {
    if n == 0 then 0 else Taken(marks, n - 1) + (if marks[n - 1] then 1 else 0)
  }

  /** The same for one group. */
  function TakenIn(hosts: seq<Host>, marks: seq<bool>, n: nat, key: string): nat
    requires n <= |marks| <= |hosts|
  {
    if n == 0 then 0
    else TakenIn(hosts, marks, n - 1, key) + (if marks[n - 1] && GroupKey(hosts[n - 1]) == key then 1 else 0)
  }

  /** Why a host is turned away after the given hosts have been taken, if it is. */
  function Verdict(hosts: seq<Host>, caps: Caps, before: seq<bool>, key: string): Option<RejectReason>
    requires |before| <= |hosts|
  {
    if Taken(before, |before|) >= caps.total then Some(MaxHosts)
    else if TakenIn(hosts, before, |before|, key) >= caps.perGroup then Some(MaxPerGroup)
    else None
  }

  /** The greedy selection among the first n hosts. */
  function Greedy(hosts: seq<Host>, caps: Caps, n: nat): (marks: seq<bool>)
    requires n <= |hosts|
    ensures |marks| == n
  {
    if n == 0 then []
    else
      var before := Greedy(hosts, caps, n - 1);
      before + [Verdict(hosts, caps, before, GroupKey(hosts[n - 1])) == None]
  }

  /** Why host i is turned away when it is reached, if it is. */
  function Refusal(hosts: seq<Host>, caps: Caps, i: nat): Option<RejectReason>
    requires i < |hosts|
  {
    Verdict(hosts, caps, Greedy(hosts, caps, i), GroupKey(hosts[i]))
  }

  function Accepted(hosts: seq<Host>, caps: Caps, n: nat): seq<Host>
    requires n <= |hosts|
  {
    if n == 0 then []
    else Accepted(hosts, caps, n - 1) + (if Refusal(hosts, caps, n - 1) == None then [hosts[n - 1]] else [])
  }

  function Rejected(hosts: seq<Host>, caps: Caps, n: nat): seq<Rejection>
    requires n <= |hosts|
  {
    if n == 0 then []
    else
      var refusal := Refusal(hosts, caps, n - 1);
      Rejected(hosts, caps, n - 1) + (if refusal == None then [] else [Rejection(hosts[n - 1].id, refusal.value)])
  }

  lemma {:induction false} TakenFrame(hosts: seq<Host>, marks: seq<bool>, more: seq<bool>, n: nat, key: string)
    requires n <= |marks| && |marks + more| <= |hosts|
    ensures Taken(marks + more, n) == Taken(marks, n)
    ensures TakenIn(hosts, marks + more, n, key) == TakenIn(hosts, marks, n, key)
  {
    if n > 0 { TakenFrame(hosts, marks, more, n - 1, key); }
  }

  /** One more host: what it adds to the counts. */
  lemma GreedyStep(hosts: seq<Host>, caps: Caps, n: nat, key: string)
    requires n < |hosts|
    ensures var before, after := Greedy(hosts, caps, n), Greedy(hosts, caps, n + 1);
            var added := if Refusal(hosts, caps, n) == None then 1 else 0;
            && after == before + [Refusal(hosts, caps, n) == None]
            && Taken(after, n + 1) == Taken(before, n) + added
            && TakenIn(hosts, after, n + 1, key)
                 == TakenIn(hosts, before, n, key) + (if GroupKey(hosts[n]) == key then added else 0)
  {
    var before := Greedy(hosts, caps, n);
    TakenFrame(hosts, before, [Refusal(hosts, caps, n) == None], n, key);
  }

  function CountOf(counts: map<string, nat>, key: string): nat {
    if key in counts then counts[key] else 0
  }

  /** The local variables of the selection loop after n hosts. */
  ghost predicate LoopState(hosts: seq<Host>, caps: Caps, n: nat, accepted: seq<Host>, rejected: seq<Rejection>,
                            byGroup: map<string, nat>)
    requires n <= |hosts|
  {
    && accepted == Accepted(hosts, caps, n) && |accepted| == Taken(Greedy(hosts, caps, n), n)
    && rejected == Rejected(hosts, caps, n)
    && forall key :: CountOf(byGroup, key) == TakenIn(hosts, Greedy(hosts, caps, n), n, key)
  }

  lemma CountsStep(hosts: seq<Host>, caps: Caps, n: nat, byGroup: map<string, nat>, byGroup': map<string, nat>)
    requires n < |hosts| && forall key :: CountOf(byGroup, key) == TakenIn(hosts, Greedy(hosts, caps, n), n, key)
    requires var key := GroupKey(hosts[n]);
             byGroup' == if Refusal(hosts, caps, n) == None then byGroup[key := CountOf(byGroup, key) + 1] else byGroup
    ensures forall key :: CountOf(byGroup', key) == TakenIn(hosts, Greedy(hosts, caps, n + 1), n + 1, key)
  {
    forall k ensures CountOf(byGroup', k) == TakenIn(hosts, Greedy(hosts, caps, n + 1), n + 1, k) {
      GreedyStep(hosts, caps, n, k);
      assert CountOf(byGroup, k) == TakenIn(hosts, Greedy(hosts, caps, n), n, k);
    }
  }

  lemma LoopStep(hosts: seq<Host>, caps: Caps, n: nat, accepted: seq<Host>, rejected: seq<Rejection>,
                 byGroup: map<string, nat>)
    requires n < |hosts| && LoopState(hosts, caps, n, accepted, rejected, byGroup)
    ensures var key := GroupKey(hosts[n]);
            var count := CountOf(byGroup, key);
            if |accepted| >= caps.total then
              LoopState(hosts, caps, n + 1, accepted, rejected + [Rejection(hosts[n].id, MaxHosts)], byGroup)
            else if count >= caps.perGroup then
              LoopState(hosts, caps, n + 1, accepted, rejected + [Rejection(hosts[n].id, MaxPerGroup)], byGroup)
            else
              LoopState(hosts, caps, n + 1, accepted + [hosts[n]], rejected, byGroup[key := count + 1])
  {
    var key := GroupKey(hosts[n]);
    GreedyStep(hosts, caps, n, key);
    assert CountOf(byGroup, key) == TakenIn(hosts, Greedy(hosts, caps, n), n, key);
    var byGroup' := if Refusal(hosts, caps, n) == None then byGroup[key := CountOf(byGroup, key) + 1] else byGroup;
    CountsStep(hosts, caps, n, byGroup, byGroup');
  }

  /** applyFleetBlastRadiusSafeguards */
  method ApplyBlastRadiusSafeguards(hosts: seq<Host>, totalEnabledFleet: int, maxHosts: int, maxPerGroup: int,
                                    maxPercent: int)
    returns (accepted: seq<Host>, rejected: seq<Rejection>)
    ensures var caps := EffectiveCaps(totalEnabledFleet, maxHosts, maxPerGroup, maxPercent);
            accepted == Accepted(hosts, caps, |hosts|) && rejected == Rejected(hosts, caps, |hosts|)
  {
    var allowedByPercent := Max(1, Max(1, totalEnabledFleet) * ClampInt(maxPercent, 1, 100) / 100);
    var caps := Caps(Min(ClampInt(maxHosts, 1, 500), allowedByPercent), ClampInt(maxPerGroup, 1, 200));
    accepted, rejected := [], [];
    var byGroup: map<string, nat> := map[];
    for n := 0 to |hosts|
      invariant LoopState(hosts, caps, n, accepted, rejected, byGroup)
    {
      var host := hosts[n];
      LoopStep(hosts, caps, n, accepted, rejected, byGroup);
      if |accepted| >= caps.total {
        rejected := rejected + [Rejection(host.id, MaxHosts)];
        continue;
      }
      var groupKey := GroupKey(host);
      var groupCount := CountOf(byGroup, groupKey);
      if groupCount >= caps.perGroup {
        rejected := rejected + [Rejection(host.id, MaxPerGroup)];
        continue;
      }
      accepted := accepted + [host];
      byGroup := byGroup[groupKey := groupCount + 1];
    }
  }

  // ---------------------------------------------------------------- optimality

  /** How many of the first n hosts are taken, leaving some groups out of the count. */
  function TakenOutside(hosts: seq<Host>, marks: seq<bool>, n: nat, without: set<string>): nat
    requires n <= |marks| <= |hosts|
  {
    if n == 0 then 0
    else TakenOutside(hosts, marks, n - 1, without)
         + (if marks[n - 1] && GroupKey(hosts[n - 1]) !in without then 1 else 0)
  }

  /** A selection that respects both caps. */
  ghost predicate Feasible(hosts: seq<Host>, caps: Caps, marks: seq<bool>) {
    && |marks| == |hosts|
    && Taken(marks, |hosts|) <= caps.total
    && forall key :: TakenIn(hosts, marks, |hosts|, key) <= caps.perGroup
  }

  lemma {:induction false} OutsideSplit(hosts: seq<Host>, marks: seq<bool>, n: nat, without: set<string>, key: string)
    requires n <= |marks| <= |hosts| && key !in without
    ensures TakenOutside(hosts, marks, n, without)
            == TakenOutside(hosts, marks, n, without + {key}) + TakenIn(hosts, marks, n, key)
  {
    if n > 0 { OutsideSplit(hosts, marks, n - 1, without, key); }
  }

  lemma {:induction false} OutsideNothing(hosts: seq<Host>, marks: seq<bool>, n: nat)
    requires n <= |marks| <= |hosts|
    ensures TakenOutside(hosts, marks, n, {}) == Taken(marks, n)
  {
    if n > 0 { OutsideNothing(hosts, marks, n - 1); }
  }

  lemma {:induction false} CountsGrow(hosts: seq<Host>, marks: seq<bool>, n: nat, m: nat, key: string)
    requires n <= m <= |marks| <= |hosts|
    ensures Taken(marks, n) <= Taken(marks, m) && TakenIn(hosts, marks, n, key) <= TakenIn(hosts, marks, m, key)
  {
    if n < m { CountsGrow(hosts, marks, n, m - 1, key); }
  }

  lemma {:induction false} OutsideFrame(hosts: seq<Host>, marks: seq<bool>, more: seq<bool>, n: nat,
                                        without: set<string>)
    requires n <= |marks| && |marks + more| <= |hosts|
    ensures TakenOutside(hosts, marks + more, n, without) == TakenOutside(hosts, marks, n, without)
  {
    if n > 0 { OutsideFrame(hosts, marks, more, n - 1, without); }
  }

  lemma {:induction false} GreedyCounts(hosts: seq<Host>, caps: Caps, n: nat, key: string)
    requires n <= |hosts|
    ensures Taken(Greedy(hosts, caps, n), n) <= caps.total
    ensures TakenIn(hosts, Greedy(hosts, caps, n), n, key) <= caps.perGroup
  {
    if n > 0 {
      GreedyCounts(hosts, caps, n - 1, key);
      GreedyStep(hosts, caps, n - 1, key);
    }
  }

  /** As long as the total cap has not been reached, no feasible selection beats the greedy one,
      even after leaving out any groups: it holds as much of each group as the cap allows. */
  lemma {:induction false} BestPerGroup(hosts: seq<Host>, caps: Caps, n: nat, marks: seq<bool>, without: set<string>)
    requires n <= |hosts| && Feasible(hosts, caps, marks)
    requires Taken(Greedy(hosts, caps, n), n) < caps.total
    ensures TakenOutside(hosts, marks, n, without) <= TakenOutside(hosts, Greedy(hosts, caps, n), n, without)
    decreases n
  {
    if n > 0 {
      var key := GroupKey(hosts[n - 1]);
      var before := Greedy(hosts, caps, n - 1);
      var mine := Greedy(hosts, caps, n);
      GreedyStep(hosts, caps, n - 1, key);
      if Refusal(hosts, caps, n - 1) == None || key in without {
        BestPerGroup(hosts, caps, n - 1, marks, without);
        OutsideFrame(hosts, before, [Refusal(hosts, caps, n - 1) == None], n - 1, without);
      } else {
        BestPerGroup(hosts, caps, n - 1, marks, without + {key});
        OutsideFrame(hosts, before, [false], n - 1, without + {key});
        OutsideSplit(hosts, marks, n, without, key);
        OutsideSplit(hosts, mine, n, without, key);
        CountsGrow(hosts, marks, n, |hosts|, key);
      }
    }
  }

  lemma {:induction false} GreedyPrefix(hosts: seq<Host>, caps: Caps, n: nat, m: nat)
    requires n <= m <= |hosts|
    ensures Greedy(hosts, caps, m)[..n] == Greedy(hosts, caps, n)
  {
    if n < m { GreedyPrefix(hosts, caps, n, m - 1); }
  }

  /** The greedy selection respects the caps, and within every prefix of the host list it takes at least
      as many hosts as any selection that respects them. */
  lemma GreedyBeatsFeasible(hosts: seq<Host>, caps: Caps, n: nat, marks: seq<bool>)
    requires n <= |hosts| && Feasible(hosts, caps, marks)
    ensures Taken(marks, n) <= Taken(Greedy(hosts, caps, |hosts|), n)
  {
    var all, mine := Greedy(hosts, caps, |hosts|), Greedy(hosts, caps, n);
    GreedyPrefix(hosts, caps, n, |hosts|);
    assert all == mine + all[n..];
    TakenFrame(hosts, mine, all[n..], n, "");
    OutsideNothing(hosts, marks, n);
    OutsideNothing(hosts, mine, n);
    CountsGrow(hosts, marks, n, |hosts|, "");
    GreedyCounts(hosts, caps, n, "");
    if Taken(mine, n) < caps.total { BestPerGroup(hosts, caps, n, marks, {}); }
  }

  // ---------------------------------------------------------------- selections as sets of positions

  /** Hosts without a group count as one group, which can be named as well. */
  predicate InGroup(h: Host, key: string) {
    h.group == Some(key) || (h.group == None && key == "__ungrouped")
  }

  ghost function Until(chosen: set<nat>, n: nat): set<nat> { set i | i in chosen && i < n }

  ghost function OfGroup(hosts: seq<Host>, chosen: set<nat>, n: nat, key: string): set<nat>
    requires n <= |hosts|
  {
    set i | i in chosen && i < n && InGroup(hosts[i], key)
  }

  function Marks(chosen: set<nat>, len: nat): seq<bool> { seq(len, (i: nat) => i in chosen) }

  lemma {:induction false} TakenIsSize(chosen: set<nat>, len: nat, n: nat)
    requires n <= len
    ensures Taken(Marks(chosen, len), n) == |Until(chosen, n)|
  {
    if n == 0 {
      assert Until(chosen, 0) == {};
    } else {
      TakenIsSize(chosen, len, n - 1);
      assert Until(chosen, n) == Until(chosen, n - 1) + if n - 1 in chosen then {n - 1} else {};
    }
  }

  lemma {:induction false} TakenInIsSize(hosts: seq<Host>, chosen: set<nat>, n: nat, key: string)
    requires n <= |hosts|
    ensures TakenIn(hosts, Marks(chosen, |hosts|), n, key) == |OfGroup(hosts, chosen, n, key)|
  {
    if n == 0 {
      assert OfGroup(hosts, chosen, 0, key) == {};
    } else {
      TakenInIsSize(hosts, chosen, n - 1, key);
      assert OfGroup(hosts, chosen, n, key)
          == OfGroup(hosts, chosen, n - 1, key)
             + if n - 1 in chosen && InGroup(hosts[n - 1], key) then {n - 1} else {};
    }
  }

  /** The selection keeps the limits of the caller: on all hosts, and on each group. */
  ghost predicate Permitted(hosts: seq<Host>, chosen: set<nat>, totalEnabledFleet: int, maxHosts: int,
                            maxPerGroup: int, maxPercent: int) {
    && (forall i | i in chosen :: i < |hosts|)
    && Allowed(|chosen|, totalEnabledFleet, maxHosts, maxPercent)
    && forall key :: |OfGroup(hosts, chosen, |hosts|, key)| <= Max(1, Min(maxPerGroup, 200))
  }

  /** The positions of the accepted hosts. */
  ghost function AcceptedAt(hosts: seq<Host>, caps: Caps): set<nat> {
    set i: nat | i < |hosts| && Refusal(hosts, caps, i) == None
  }

  lemma {:induction false} GreedyMarks(hosts: seq<Host>, caps: Caps, n: nat, i: nat)
    requires i < n <= |hosts|
    ensures Greedy(hosts, caps, n)[i] <==> Refusal(hosts, caps, i) == None
  {
    if i < n - 1 { GreedyMarks(hosts, caps, n - 1, i); }
  }

  lemma AcceptedIsGreedy(hosts: seq<Host>, caps: Caps)
    ensures Marks(AcceptedAt(hosts, caps), |hosts|) == Greedy(hosts, caps, |hosts|)
  {
    forall i: nat | i < |hosts| ensures i in AcceptedAt(hosts, caps) <==> Greedy(hosts, caps, |hosts|)[i] {
      GreedyMarks(hosts, caps, |hosts|, i);
    }
  }

  lemma PermittedIsFeasible(hosts: seq<Host>, chosen: set<nat>, totalEnabledFleet: int, maxHosts: int,
                            maxPerGroup: int, maxPercent: int)
    requires forall i | i in chosen :: i < |hosts|
    ensures Permitted(hosts, chosen, totalEnabledFleet, maxHosts, maxPerGroup, maxPercent) <==>
              Feasible(hosts, EffectiveCaps(totalEnabledFleet, maxHosts, maxPerGroup, maxPercent),
                       Marks(chosen, |hosts|))
  {
    assert Until(chosen, |hosts|) == chosen;
    CapsAreExact(totalEnabledFleet, maxHosts, maxPerGroup, maxPercent, |chosen|);
    TakenIsSize(chosen, |hosts|, |hosts|);
    forall key ensures TakenIn(hosts, Marks(chosen, |hosts|), |hosts|, key) == |OfGroup(hosts, chosen, |hosts|, key)| {
      TakenInIsSize(hosts, chosen, |hosts|, key);
    }
  }

  lemma GreedyIsFeasible(hosts: seq<Host>, caps: Caps)
    ensures Feasible(hosts, caps, Greedy(hosts, caps, |hosts|))
  {
    forall key ensures TakenIn(hosts, Greedy(hosts, caps, |hosts|), |hosts|, key) <= caps.perGroup {
      GreedyCounts(hosts, caps, |hosts|, key);
    }
    GreedyCounts(hosts, caps, |hosts|, "");
  }

  /** The accepted hosts keep the caller's limits, and within every prefix of the host list they are at
      least as many as those of any other selection that keeps them. So as many hosts as possible are
      accepted, and the k-th of them comes no later than the k-th of any other selection. */
  lemma GreedySelectionIsOptimal(hosts: seq<Host>, totalEnabledFleet: int, maxHosts: int, maxPerGroup: int,
                                 maxPercent: int, other: set<nat>, n: nat)
    requires n <= |hosts|
    ensures var accepted := AcceptedAt(hosts, EffectiveCaps(totalEnabledFleet, maxHosts, maxPerGroup, maxPercent));
            && |Accepted(hosts, EffectiveCaps(totalEnabledFleet, maxHosts, maxPerGroup, maxPercent), |hosts|)|
               == |accepted|
            && Permitted(hosts, accepted, totalEnabledFleet, maxHosts, maxPerGroup, maxPercent)
            && (Permitted(hosts, other, totalEnabledFleet, maxHosts, maxPerGroup, maxPercent) ==>
                  |Until(other, n)| <= |Until(accepted, n)|)
  {
    var caps := EffectiveCaps(totalEnabledFleet, maxHosts, maxPerGroup, maxPercent);
    var accepted := AcceptedAt(hosts, caps);
    AcceptedIsGreedy(hosts, caps);
    ListLengths(hosts, caps, |hosts|);
    TakenIsSize(accepted, |hosts|, |hosts|);
    assert Until(accepted, |hosts|) == accepted;
    GreedyIsFeasible(hosts, caps);
    PermittedIsFeasible(hosts, accepted, totalEnabledFleet, maxHosts, maxPerGroup, maxPercent);
    if Permitted(hosts, other, totalEnabledFleet, maxHosts, maxPerGroup, maxPercent) {
      PermittedIsFeasible(hosts, other, totalEnabledFleet, maxHosts, maxPerGroup, maxPercent);
      GreedyBeatsFeasible(hosts, caps, n, Marks(other, |hosts|));
      TakenIsSize(accepted, |hosts|, n);
      TakenIsSize(other, |hosts|, n);
    }
  }

  lemma GreedyUpTo(hosts: seq<Host>, caps: Caps, i: nat)
    requires i <= |hosts|
    ensures Greedy(hosts, caps, i) == Marks(AcceptedAt(hosts, caps), i)
  {
    forall j: nat | j < i ensures Greedy(hosts, caps, i)[j] <==> j in AcceptedAt(hosts, caps) {
      GreedyMarks(hosts, caps, i, j);
    }
  }

  lemma CountsUpTo(hosts: seq<Host>, chosen: set<nat>, i: nat, key: string)
    requires i <= |hosts|
    ensures Taken(Marks(chosen, i), i) == |Until(chosen, i)|
    ensures TakenIn(hosts, Marks(chosen, i), i, key) == |OfGroup(hosts, chosen, i, key)|
  {
    TakenIsSize(chosen, i, i);
    TakenInIsSize(hosts, chosen, i, key);
    assert Marks(chosen, |hosts|) == Marks(chosen, i) + Marks(chosen, |hosts|)[i..];
    TakenFrame(hosts, Marks(chosen, i), Marks(chosen, |hosts|)[i..], i, key);
  }

  /** Why a host is turned away when it is reached: because one host more than those accepted before it
      is not allowed, and otherwise because its group has no room left. */
  lemma RefusalIsExact(hosts: seq<Host>, totalEnabledFleet: int, maxHosts: int, maxPerGroup: int, maxPercent: int,
                       i: nat, key: string)
    requires i < |hosts| && InGroup(hosts[i], key)
    ensures var caps := EffectiveCaps(totalEnabledFleet, maxHosts, maxPerGroup, maxPercent);
            var accepted := AcceptedAt(hosts, caps);
            Refusal(hosts, caps, i) ==
              if !Allowed(|Until(accepted, i)| + 1, totalEnabledFleet, maxHosts, maxPercent) then Some(MaxHosts)
              else if |OfGroup(hosts, accepted, i, key)| >= Max(1, Min(maxPerGroup, 200)) then Some(MaxPerGroup)
              else None
  {
    var caps := EffectiveCaps(totalEnabledFleet, maxHosts, maxPerGroup, maxPercent);
    var accepted := AcceptedAt(hosts, caps);
    GreedyUpTo(hosts, caps, i);
    CountsUpTo(hosts, accepted, i, key);
    CapsAreExact(totalEnabledFleet, maxHosts, maxPerGroup, maxPercent, |Until(accepted, i)| + 1);
  }

  // ---------------------------------------------------------------- the two lists

  /** Host i has its place in exactly one of the two lists: after the hosts accepted before it, or
      after those rejected before it, with the reason that turned it away. */
  predicate Placed(hosts: seq<Host>, caps: Caps, i: nat, accepted: seq<Host>, rejected: seq<Rejection>)
    requires i < |hosts|
  {
    var a := Taken(Greedy(hosts, caps, i), i);
    var refusal := Refusal(hosts, caps, i);
    if refusal == None then a < |accepted| && accepted[a] == hosts[i]
    else i - a < |rejected| && rejected[i - a] == Rejection(hosts[i].id, refusal.value)
  }

  lemma StaysPlaced(hosts: seq<Host>, caps: Caps, i: nat, accepted: seq<Host>,
                    rejected: seq<Rejection>,
                    accepted': seq<Host>, rejected': seq<Rejection>)
    requires i < |hosts| && Placed(hosts, caps, i, accepted, rejected)
    requires accepted <= accepted' && rejected <= rejected'
    ensures Placed(hosts, caps, i, accepted', rejected')
  {
  }

  lemma ListsGrow(hosts: seq<Host>, caps: Caps, n: nat)
    requires 0 < n <= |hosts|
    ensures Accepted(hosts, caps, n - 1) <= Accepted(hosts, caps, n)
    ensures Rejected(hosts, caps, n - 1) <= Rejected(hosts, caps, n)
  {
  }

  /** The two lists together hold every host once, each list in input order, and every rejection
      carries the true reason. */
  lemma {:induction false} SelectionPartitionsInOrder(hosts: seq<Host>, caps: Caps, n: nat, i: nat)
    requires i < n <= |hosts|
    ensures |Accepted(hosts, caps, n)| + |Rejected(hosts, caps, n)| == n
    ensures Placed(hosts, caps, i, Accepted(hosts, caps, n), Rejected(hosts, caps, n))
  {
    ListLengths(hosts, caps, n);
    if i < n - 1 {
      SelectionPartitionsInOrder(hosts, caps, n - 1, i);
      ListsGrow(hosts, caps, n);
      StaysPlaced(hosts, caps, i, Accepted(hosts, caps, n - 1), Rejected(hosts, caps, n - 1),
                  Accepted(hosts, caps, n), Rejected(hosts, caps, n));
    } else {
      LastIsPlaced(hosts, caps, i);
    }
  }

  lemma LastIsPlaced(hosts: seq<Host>, caps: Caps, i: nat)
    requires i < |hosts|
    ensures Placed(hosts, caps, i, Accepted(hosts, caps, i + 1), Rejected(hosts, caps, i + 1))
  {
    ListLengths(hosts, caps, i);
  }

  lemma {:induction false} ListLengths(hosts: seq<Host>, caps: Caps, n: nat)
    requires n <= |hosts|
    ensures |Accepted(hosts, caps, n)| == Taken(Greedy(hosts, caps, n), n)
    ensures |Rejected(hosts, caps, n)| == n - Taken(Greedy(hosts, caps, n), n)
  {
    if n > 0 {
      ListLengths(hosts, caps, n - 1);
      GreedyStep(hosts, caps, n - 1, "");
    }
  }
}
