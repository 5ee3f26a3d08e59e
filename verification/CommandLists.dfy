/** How a list of commands is cleaned before it is stored (normalizeCommandList in
    src/lib/remediate/autonomous-runtime.ts, and the same in src/app/api/remediate/route.ts). */
module CommandLists {
  import opened Common

  function NonEmptyTrimmed(input: seq<string>): (r: seq<string>)
    ensures forall c | c in r :: c != "" && Trimmed(c)
  {
    if input == [] then []
    else
      var n := |input| - 1;
      var c := Trim(input[n]);
      NonEmptyTrimmed(input[..n]) + if c == "" then [] else [c]
  }

  /** normalizeCommandList */
  function CommandList(input: seq<string>): (r: seq<string>)
    ensures |r| <= 20 && forall c | c in r :: c != "" && Trimmed(c)
  {
    var all := NonEmptyTrimmed(input);
    var taken := all[..Min(20, |all|)];
    assert forall c | c in taken :: c in all;
    taken
  }

  predicate SomeFilled(input: seq<string>) { exists i | 0 <= i < |input| :: Filled(input[i]) }

  /** The elements of the list are those of the input at these positions, in order, trimmed. */
  ghost predicate TakenAt(input: seq<string>, list: seq<string>, at: seq<nat>) {
    && |at| == |list|
    && (forall k | 0 <= k < |at| :: at[k] < |input| && list[k] == Trim(input[at[k]]) && Filled(input[at[k]]))
    && (forall j, k | 0 <= j < k < |at| :: at[j] < at[k])
  }

  /** The list has the first elements of the input that are not blank, at most so many, in order and
      without the white space around them. */
  ghost predicate Cleaned(input: seq<string>, list: seq<string>, limit: nat) {
    && |list| <= limit
    && exists at: seq<nat> ::
         && TakenAt(input, list, at)
         && forall i: nat | i < |input| && Filled(input[i]) && i !in at :: |list| == limit && ComesAfter(i, at)
  }

  ghost predicate ComesAfter(i: nat, at: seq<nat>) { forall k | 0 <= k < |at| :: at[k] < i }

  lemma OneMoreTaken(input: seq<string>, list: seq<string>, at: seq<nat>)
    requires input != [] && TakenAt(input[..|input| - 1], list, at)
    ensures var n := |input| - 1;
            if Filled(input[n]) then TakenAt(input, list + [Trim(input[n])], at + [n]) else TakenAt(input, list, at)
  {
  }

  ghost predicate NoneMissing(input: seq<string>, at: seq<nat>) {
    forall i: nat | i < |input| && Filled(input[i]) :: i in at
  }

  lemma OneLessMissing(input: seq<string>, at: seq<nat>)
    requires input != [] && NoneMissing(input[..|input| - 1], at)
    ensures var n := |input| - 1; NoneMissing(input, if Filled(input[n]) then at + [n] else at)
  {
    var n := |input| - 1;
    forall i: nat | i < n && Filled(input[i]) ensures i in at { assert input[..n][i] == input[i]; }
  }

  lemma {:induction false} AllFilledAreTaken(input: seq<string>) returns (at: seq<nat>)
    ensures TakenAt(input, NonEmptyTrimmed(input), at) && NoneMissing(input, at)
  {
    if input == [] {
      at := [];
    } else {
      var n := |input| - 1;
      var before := AllFilledAreTaken(input[..n]);
      FilledIsKept(input[n]);
      OneMoreTaken(input, NonEmptyTrimmed(input[..n]), before);
      OneLessMissing(input, before);
      at := if Filled(input[n]) then before + [n] else before;
      if !Filled(input[n]) { assert NonEmptyTrimmed(input) == NonEmptyTrimmed(input[..n]); }
    }
  }

  /** What is left out by taking the first n comes after all of them. */
  lemma TheRestComesAfter(at: seq<nat>, n: nat, i: nat)
    requires n <= |at| && (forall j, k | 0 <= j < k < |at| :: at[j] < at[k]) && i in at && i !in at[..n]
    ensures n < |at| && ComesAfter(i, at[..n])
  {
    var j :| 0 <= j < |at| && at[j] == i;
    assert forall k | 0 <= k < n :: at[..n][k] == at[k];
  }

  lemma FirstAreCleaned(input: seq<string>, all: seq<string>, at: seq<nat>, limit: nat)
    requires TakenAt(input, all, at) && NoneMissing(input, at)
    ensures Cleaned(input, all[..Min(limit, |all|)], limit)
  {
    var n := Min(limit, |all|);
    assert TakenAt(input, all[..n], at[..n]);
    forall i: nat | i < |input| && Filled(input[i]) && i !in at[..n] ensures n == limit && ComesAfter(i, at[..n]) {
      TheRestComesAfter(at, n, i);
    }
  }

  /** The list is cleaned, and empty exactly when the input has nothing but blanks. */
  lemma CommandListIsCleaned(input: seq<string>)
    ensures Cleaned(input, CommandList(input), 20)
    ensures CommandList(input) != [] <==> SomeFilled(input)
  {
    var at := AllFilledAreTaken(input);
    FirstAreCleaned(input, NonEmptyTrimmed(input), at, 20);
    if CommandList(input) != [] { assert Filled(input[at[0]]); }
  }
}
