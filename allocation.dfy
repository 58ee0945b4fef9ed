/**
 * Fresh dictionary keys of the form `{prefix}{n}` (`doc_3`, `video_0`).
 *
 * Both registration paths try `{prefix}{len}` first and, while the candidate
 * is taken, assign a second candidate computed from lengths that do not
 * change inside the loop, so the loop spins forever when both candidates
 * are taken. `AllocateAsWritten` records that behaviour; `AllocateKey` is
 * the allocator the model uses: it keeps counting up from the second
 * candidate, agrees with the source whenever the source terminates, and
 * always terminates.
 */
module Allocation {
  import opened Common
  import opened Decimal

  function Key(prefix: string, n: nat): string
  {
    prefix + NatToString(n)
  }

  /** The number a `{prefix}{digits}` key carries, if it has that form. */
  function KeyNumber(prefix: string, k: string): (r: Option<nat>)
  {
    if |prefix| <= |k| && k[..|prefix|] == prefix then ParseNat(k[|prefix|..]) else None
  }

  lemma KeyNumberOfKey(prefix: string, n: nat)
    ensures KeyNumber(prefix, Key(prefix, n)) == Some(n)
  {
    var k := Key(prefix, n);
    assert k[..|prefix|] == prefix;
    assert k[|prefix|..] == NatToString(n);
    NatToStringRoundTrip(n);
  }

  lemma KeyInjective(prefix: string, a: nat, b: nat)
    requires Key(prefix, a) == Key(prefix, b)
    ensures a == b
  {
    KeyNumberOfKey(prefix, a);
    KeyNumberOfKey(prefix, b);
  }

  /** The keys that carry a number at least `n`. */
  function Taken(prefix: string, keys: set<string>, n: nat): set<string>
  {
    set k | k in keys && KeyNumber(prefix, k).Some? && KeyNumber(prefix, k).value >= n
  }

  lemma TakenShrinks(prefix: string, keys: set<string>, n: nat)
    requires Key(prefix, n) in keys
    ensures |Taken(prefix, keys, n + 1)| < |Taken(prefix, keys, n)|
  {
    KeyNumberOfKey(prefix, n);
    assert Key(prefix, n) in Taken(prefix, keys, n);
    assert Key(prefix, n) !in Taken(prefix, keys, n + 1);
    var smaller := Taken(prefix, keys, n) - {Key(prefix, n)};
    assert Taken(prefix, keys, n + 1) <= smaller;
    assert |smaller| == |Taken(prefix, keys, n)| - 1;
    SubsetCard(Taken(prefix, keys, n + 1), smaller);
  }

  /** The least `m >= n` whose key is free. */
  function FirstFree(prefix: string, keys: set<string>, n: nat): (r: nat)
    decreases |Taken(prefix, keys, n)|
    ensures r >= n && Key(prefix, r) !in keys
    ensures forall m :: n <= m < r ==> Key(prefix, m) in keys
  {
    if Key(prefix, n) !in keys then n
    else
      TakenShrinks(prefix, keys, n);
      FirstFree(prefix, keys, n + 1)
  }

  /**
   * The source's loop: `first`, then `retry` re-assigned on every pass.
   * `None` stands for the loop never ending.
   */
  function AllocateAsWritten(prefix: string, keys: set<string>, first: nat, retry: nat): (r: Option<string>)
    ensures r.Some? ==> r.value !in keys
    ensures r.None? <==> Key(prefix, first) in keys && Key(prefix, retry) in keys
  {
    if Key(prefix, first) !in keys then Some(Key(prefix, first))
    else if Key(prefix, retry) !in keys then Some(Key(prefix, retry))
    else None
  }

  /** The intended allocation: `first` if free, else the first free number from `retry` up. */
  function Allocated(prefix: string, keys: set<string>, first: nat, retry: nat): string
  {
    if Key(prefix, first) !in keys then Key(prefix, first) else Key(prefix, FirstFree(prefix, keys, retry))
  }

  /** The corrected allocator returns what the source returns whenever the source returns. */
  lemma AllocationAgrees(prefix: string, keys: set<string>, first: nat, retry: nat)
    ensures AllocateAsWritten(prefix, keys, first, retry).Some? ==>
      AllocateAsWritten(prefix, keys, first, retry).value == Allocated(prefix, keys, first, retry)
  {
  }

  /** `{doc_2, doc_3}` holds two documents: `doc_2` is taken and so is `doc_3`, so the loop spins. */
  lemma DocAllocationHangs()
    ensures AllocateAsWritten("doc_", {"doc_2", "doc_3"}, 2, 3) == None
  {
    assert NatToString(2) == "2" && NatToString(3) == "3";
    assert Key("doc_", 2) == "doc_2" && Key("doc_", 3) == "doc_3";
  }

  /** The model's allocator: the source's loop with the candidate counting up. */
  method AllocateKey(prefix: string, keys: set<string>, first: nat, retry: nat) returns (key: string)
    ensures key == Allocated(prefix, keys, first, retry)
    ensures key !in keys
    ensures exists n: nat :: key == Key(prefix, n) && (n == first || n >= retry)
  {
    key := Key(prefix, first);
    if key in keys {
      var n := retry;
      key := Key(prefix, n);
      while key in keys
        invariant n >= retry && key == Key(prefix, n)
        invariant FirstFree(prefix, keys, n) == FirstFree(prefix, keys, retry)
        decreases |Taken(prefix, keys, n)|
      {
        TakenShrinks(prefix, keys, n);
        n := n + 1;
        key := Key(prefix, n);
      }
    }
  }
}
