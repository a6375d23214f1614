/** The receipt: the independent validator, and what holds between it and the generator. */
module NoDebtReceipt {
  import opened Prelude
  import opened Ordering
  import opened NoDebt

  // ---- validate_no_debt_receipt -------------------------------------------------

  predicate SourceOk(s: Source) {
    && s.kind in KINDS && IsSha256(s.contentSha) && s.inventoryCount > 0 && Command(s.command)
    && IsSha256(s.inventorySha) && IsSha256(s.custodyReceipt) && IsSha256(s.terminalReceipt)
  }

  function TotalCount(sources: seq<Source>): int {
    if sources == [] then 0 else TotalCount(sources[..|sources| - 1]) + sources[|sources| - 1].inventoryCount
  }

  function SourceKinds(sources: seq<Source>): set<string> {
    set i | 0 <= i < |sources| :: sources[i].kind
  }

  /** What the validator asks of a receipt and the hash it carries. */
  ghost predicate ReceiptOk(h: Digests, receipt: Receipt, sha: string) {
    && receipt.schema == OUTPUT_SCHEMA && sha == h.receipt(receipt)
    && IsSha256(receipt.aggregateSha) && IsSha256(receipt.inventorySha)
    && receipt.revision != map[] && receipt.runtime != map[]
    && receipt.sources != []
    && (forall i :: 0 <= i < |receipt.sources| ==> SourceOk(receipt.sources[i]))
    && StrictlySorted(SourceSha, receipt.sources)
    && SourceKinds(receipt.sources) == KINDS
    && receipt.inventoryCount > 0 && receipt.inventoryCount == TotalCount(receipt.sources)
    && CleanRun(receipt.counts, receipt.inventoryCount)
    && receipt.debt == Debt(0, 0, 0, 0) && receipt.passed
  }

  datatype ReceiptError =
    | HeaderInvalid | SourceInvalid | DuplicateSource | KindsIncomplete | SourcesUnsorted | TotalWrong | CountsWrong | DebtWrong

  lemma SortedAdjacent(sources: seq<Source>, i: nat)
    requires i < |sources| && StrictlySorted(SourceSha, sources[..i])
    requires i > 0 ==> Lt(SourceSha(sources[i - 1]), SourceSha(sources[i]))
    ensures StrictlySorted(SourceSha, sources[..i + 1])
  {
    var xs := sources[..i + 1];
    forall j, m | 0 <= j < m < |xs| ensures Lt(SourceSha(xs[j]), SourceSha(xs[m])) {
      if m < i {
        assert sources[..i][j] == xs[j] && sources[..i][m] == xs[m];
      } else if j < i - 1 {
        assert Lt(SourceSha(sources[..i][j]), SourceSha(sources[..i][i - 1]));
        LtTotal(SourceSha(xs[j]), SourceSha(xs[i - 1]));
        LtTotal(SourceSha(xs[i - 1]), SourceSha(xs[i]));
        LtTransitive(SourceSha(xs[j]), SourceSha(xs[i - 1]), SourceSha(xs[i]));
      }
    }
  }

  /** `validate_no_debt_receipt`. The source compares the listed hashes with the sorted set of
      them; comparing neighbours decides the same. */
  method Validate(h: Digests, receipt: Receipt, sha: string) returns (r: Result<Receipt, ReceiptError>)
    ensures r.Ok? <==> ReceiptOk(h, receipt, sha)
    ensures r.Ok? ==> r.value == receipt
  {
    hide SourceOk;
    hide Lt;
    hide IsSha256;
    if receipt.schema != OUTPUT_SCHEMA || sha != h.receipt(receipt) || !IsSha256(receipt.aggregateSha)
       || !IsSha256(receipt.inventorySha) || receipt.revision == map[] || receipt.runtime == map[] || receipt.sources == [] {
      return Err(HeaderInvalid);
    }
    var sources := receipt.sources;
    var kinds: set<string> := {};
    var total := 0;
    for i := 0 to |sources|
      invariant forall j :: 0 <= j < i ==> SourceOk(sources[j])
      invariant StrictlySorted(SourceSha, sources[..i])
      invariant kinds == set j | 0 <= j < i :: sources[j].kind
      invariant total == TotalCount(sources[..i])
    {
      if !SourceOk(sources[i]) {
        return Err(SourceInvalid);
      }
      if i > 0 && !Lt(sources[i - 1].contentSha, sources[i].contentSha) {
        assert !Lt(SourceSha(sources[i - 1]), SourceSha(sources[i]));
        return Err(if sources[i - 1].contentSha == sources[i].contentSha then DuplicateSource else SourcesUnsorted);
      }
      SortedAdjacent(sources, i);
      assert sources[..i + 1][..i] == sources[..i];
      kinds := kinds + {sources[i].kind};
      total := total + sources[i].inventoryCount;
    }
    assert sources[..|sources|] == sources;
    if kinds != KINDS {
      return Err(KindsIncomplete);
    }
    if receipt.inventoryCount <= 0 || receipt.inventoryCount != total {
      return Err(TotalWrong);
    }
    if !NonNegative(receipt.counts) || !CleanRun(receipt.counts, receipt.inventoryCount) {
      return Err(CountsWrong);
    }
    if receipt.debt != Debt(0, 0, 0, 0) || !receipt.passed {
      return Err(DebtWrong);
    }
    r := Ok(receipt);
  }

  // ---- Order independence ----------------------------------------------------------

  lemma MembersAreUnordered(a: seq<Attested>, b: seq<Attested>)
    requires multiset(a) == multiset(b)
    ensures forall x :: x in a <==> x in b
  {
    forall x ensures x in a <==> x in b {
      assert x in a <==> x in multiset(a);
      assert x in b <==> x in multiset(b);
    }
  }

  lemma PlusCommutes(a: Counts, b: Counts, c: Counts)
    ensures Plus(Plus(a, b), c) == Plus(Plus(a, c), b)
  {
  }

  /** Taking one shard out of the middle. */
  lemma {:induction false} SumRemove(a: seq<Attested>, i: nat)
    requires i < |a|
    ensures SumCounts(a) == Plus(SumCounts(a[..i] + a[i + 1..]), a[i].shard.counts)
  {
    var n := |a| - 1;
    if i < n {
      SumRemove(a[..n], i);
      var rest := a[..i] + a[i + 1..];
      assert rest[..|rest| - 1] == a[..n][..i] + a[..n][i + 1..];
      assert rest[|rest| - 1] == a[n];
      PlusCommutes(SumCounts(rest[..|rest| - 1]), a[i].shard.counts, a[n].shard.counts);
    } else {
      assert a[..i] + a[i + 1..] == a[..n];
    }
  }

  lemma RemoveAt(b: seq<Attested>, i: nat)
    requires i < |b|
    ensures multiset(b[..i] + b[i + 1..]) == multiset(b) - multiset{b[i]}
  {
    assert b == b[..i] + [b[i]] + b[i + 1..];
  }

  lemma {:induction false} SumIsUnordered(a: seq<Attested>, b: seq<Attested>)
    requires multiset(a) == multiset(b)
    ensures SumCounts(a) == SumCounts(b)
    decreases |a|
  {
    if a == [] {
      assert |multiset(b)| == 0;
    } else {
      var n := |a| - 1;
      assert a[n] in multiset(a);
      assert a[n] in b;
      var i :| 0 <= i < |b| && b[i] == a[n];
      var rest := b[..i] + b[i + 1..];
      RemoveAt(a, n);
      RemoveAt(b, i);
      assert a[..n] + a[n + 1..] == a[..n];
      SumIsUnordered(a[..n], rest);
      hide SumCounts;
      SumRemove(a, n);
      SumRemove(b, i);
    }
  }

  /** The set conditions of a partition depend on the members only. */
  lemma MembersDecide(agg: Aggregate, a: seq<Attested>, b: seq<Attested>)
    requires forall x :: x in a <==> x in b
    ensures AllExpected(agg, a) ==> AllExpected(agg, b)
    ensures AllSupplied(agg, a) ==> AllSupplied(agg, b)
    ensures AllDisjoint(a) ==> AllDisjoint(b)
    ensures BothKinds(a) ==> BothKinds(b)
    ensures Covers(a, agg.expectedInventory) ==> Covers(b, agg.expectedInventory)
  {
    hide Matches;
    hide Disjoint;
  }

  lemma PartitionIsUnordered(h: Digests, agg: Aggregate, aggSha: string, a: seq<Attested>, b: seq<Attested>)
    requires multiset(a) == multiset(b) && ExactPartition(h, agg, aggSha, a)
    ensures ExactPartition(h, agg, aggSha, b)
  {
    hide ShardOk;
    hide AggregateOk;
    hide Distinct;
    hide AllExpected;
    hide AllSupplied;
    hide AllDisjoint;
    hide BothKinds;
    hide Covers;
    MembersAreUnordered(a, b);
    DistinctIsUnordered(Sha, a, b);
    MembersDecide(agg, a, b);
  }

  /** Generation does not depend on the order the shards are supplied in: any permutation is
      accepted or refused alike, and yields the identical receipt. */
  lemma ShardOrderIsIrrelevant(h: Digests, agg: Aggregate, aggSha: string, a: seq<Attested>, b: seq<Attested>)
    requires multiset(a) == multiset(b)
    ensures ExactPartition(h, agg, aggSha, a) <==> ExactPartition(h, agg, aggSha, b)
    ensures ExactPartition(h, agg, aggSha, a) ==> ReceiptOf(h, agg, aggSha, a) == ReceiptOf(h, agg, aggSha, b)
  {
    hide Sort;
    hide SumCounts;
    if ExactPartition(h, agg, aggSha, a) {
      PartitionIsUnordered(h, agg, aggSha, a, b);
      SortIsUnordered(Sha, a, b);
      SumIsUnordered(a, b);
    }
    if ExactPartition(h, agg, aggSha, b) {
      PartitionIsUnordered(h, agg, aggSha, b, a);
    }
  }

  // ---- The counts add up ------------------------------------------------------------

  lemma {:induction false} SumOfClean(h: Digests, shards: seq<Attested>)
    requires forall a :: a in shards ==> ShardOk(h, a)
    ensures CleanRun(SumCounts(shards), |Union(shards)|)
  {
    if shards != [] {
      var n := |shards| - 1;
      SumOfClean(h, shards[..n]);
      assert ShardOk(h, shards[n]);
    }
  }

  lemma PartitionIsCompleted(h: Digests, agg: Aggregate, aggSha: string, shards: seq<Attested>)
    requires ExactPartition(h, agg, aggSha, shards)
    ensures NoRepeats(Union(shards)) && Sort(Self, Union(shards)) == agg.expectedInventory
  {
    hide StringList;
    hide Matches;
    hide ExpectedOk;
    InventoriesHaveNoRepeats(h, shards);
    hide ShardOk;
    DisjointByIndex(shards);
    UnionNoRepeats(shards);
    UnionIsExpected(agg, shards);
  }

  /** Conservation: the collected and the passed counts of an accepted receipt are the size of the
      expected inventory, nothing else was counted, and the sizes of the sources add up to it. */
  lemma CountsAddUp(h: Digests, agg: Aggregate, aggSha: string, shards: seq<Attested>)
    requires ExactPartition(h, agg, aggSha, shards)
    ensures CleanRun(SumCounts(shards), |agg.expectedInventory|)
    ensures |Union(shards)| == |agg.expectedInventory| > 0
  {
    hide ShardOk;
    hide Matches;
    SumOfClean(h, shards);
    PartitionIsCompleted(h, agg, aggSha, shards);
    SortSorts(Self, Union(shards));
    assert |multiset(Sort(Self, Union(shards)))| == |multiset(Union(shards))|;
  }

  lemma {:induction false} UnionLength(shards: seq<Attested>, h: Digests)
    ensures |Union(shards)| == TotalCount(seq(|shards|, i requires 0 <= i < |shards| => SourceOf(h, shards[i])))
  {
    if shards != [] {
      var n := |shards| - 1;
      UnionLength(shards[..n], h);
      var sources := seq(|shards|, i requires 0 <= i < |shards| => SourceOf(h, shards[i]));
      assert sources[..n] == seq(n, i requires 0 <= i < n => SourceOf(h, shards[..n][i]));
    }
  }

  lemma {:induction false} UnionLengthIsUnordered(a: seq<Attested>, b: seq<Attested>)
    requires multiset(a) == multiset(b)
    requires forall x :: x in a ==> x.shard.counts.collected == |x.shard.inventory|
    ensures |Union(a)| == |Union(b)|
  {
    MembersAreUnordered(a, b);
    SumIsUnordered(a, b);
    CollectedIsLength(a);
    CollectedIsLength(b);
  }

  lemma {:induction false} CollectedIsLength(a: seq<Attested>)
    requires forall x :: x in a ==> x.shard.counts.collected == |x.shard.inventory|
    ensures SumCounts(a).collected == |Union(a)|
  {
    if a != [] {
      var n := |a| - 1;
      assert a[n] in a;
      CollectedIsLength(a[..n]);
    }
  }

  lemma SourcesOk(h: Digests, shards: seq<Attested>, sorted: seq<Attested>)
    requires h.Canonical() && sorted == Sort(Sha, shards) && Distinct(Sha, shards)
    requires forall a :: a in shards ==> ShardOk(h, a)
    requires BothKinds(shards)
    ensures var sources := seq(|sorted|, i requires 0 <= i < |sorted| => SourceOf(h, sorted[i]));
            && sources != []
            && (forall i :: 0 <= i < |sources| ==> SourceOk(sources[i]))
            && StrictlySorted(SourceSha, sources)
            && SourceKinds(sources) == KINDS
  {
    SortSorts(Sha, shards);
    SortIsUnordered(Sha, shards, shards);
    MembersAreUnordered(shards, sorted);
    hide Sort;
    hide Lt;
    var sources := seq(|sorted|, i requires 0 <= i < |sorted| => SourceOf(h, sorted[i]));
    forall i | 0 <= i < |sources| ensures SourceOk(sources[i]) && sources[i].kind in KINDS {
      assert sorted[i] in shards;
      assert ShardOk(h, sorted[i]);
      assert IsSha256(h.shard(sorted[i].shard)) && IsSha256(h.inventory(sorted[i].shard.inventory));
    }
    hide ShardOk;
    hide SourceOk;
    forall i, j | 0 <= i < j < |sources| ensures Lt(SourceSha(sources[i]), SourceSha(sources[j])) {
      assert Lt(Sha(sorted[i]), Sha(sorted[j]));
    }
    forall k | k in KINDS ensures k in SourceKinds(sources) {
      var a :| a in shards && a.shard.kind == k;
      var i :| 0 <= i < |sorted| && sorted[i] == a;
      assert sources[i].kind == k;
    }
    assert "full_suite" in SourceKinds(sources);
    assert SourceKinds(sources) == KINDS;
  }

  lemma AggregateHeader(h: Digests, agg: Aggregate, aggSha: string)
    requires AggregateOk(h, agg, aggSha) && h.Canonical()
    ensures agg.revision != map[] && agg.runtime != map[] && IsSha256(aggSha) && IsSha256(h.inventory(agg.expectedInventory))
  {
  }

  lemma SourcesCount(h: Digests, shards: seq<Attested>)
    requires forall a :: a in shards ==> ShardOk(h, a)
    ensures var sorted := Sort(Sha, shards);
            TotalCount(seq(|sorted|, i requires 0 <= i < |sorted| => SourceOf(h, sorted[i]))) == |Union(shards)|
  {
    var sorted := Sort(Sha, shards);
    SortSorts(Sha, shards);
    UnionLength(sorted, h);
    forall x | x in shards ensures x.shard.counts.collected == |x.shard.inventory| {
      assert ShardOk(h, x);
    }
    UnionLengthIsUnordered(shards, sorted);
  }

  /** The independent validator accepts everything the generator emits. */
  lemma ValidatorAcceptsGenerator(h: Digests, agg: Aggregate, aggSha: string, shards: seq<Attested>)
    requires h.Canonical() && ExactPartition(h, agg, aggSha, shards)
    ensures ReceiptOk(h, ReceiptOf(h, agg, aggSha, shards), h.receipt(ReceiptOf(h, agg, aggSha, shards)))
  {
    hide ShardOk;
    hide AggregateOk;
    hide Sort;
    hide Union;
    hide Covers;
    hide AllExpected;
    hide AllDisjoint;
    hide AllSupplied;
    hide BothKinds;
    hide IsSha256;
    hide StrictlySorted;
    hide Distinct;
    hide SumCounts;
    hide TotalCount;
    hide SourceKinds;
    CountsAddUp(h, agg, aggSha, shards);
    SourcesOk(h, shards, Sort(Sha, shards));
    SourcesCount(h, shards);
    AggregateHeader(h, agg, aggSha);
  }

  // ---- Acceptance can always be had ---------------------------------------------

  function EntryOf(a: Attested): Expected {
    Expected(a.shard.kind, a.contentSha, a.shard.command, a.shard.inventory)
  }

  /** The aggregate that asks for exactly these shards. */
  function AggregateFor(shards: seq<Attested>, revision: Object, runtime: Object): Aggregate {
    Aggregate(AGGREGATE_SCHEMA, revision, runtime, Sort(Self, Union(shards)),
              seq(|shards|, i requires 0 <= i < |shards| => EntryOf(shards[i])))
  }

  /** Well-formed shards of one revision and runtime, of both kinds and with disjoint inventories, are
      an exact partition of the aggregate that asks for them: the conditions exclude nothing else. */
  lemma DisjointShardsAreAPartition(h: Digests, shards: seq<Attested>, revision: Object, runtime: Object)
    requires h.Canonical() && revision != map[] && runtime != map[]
    requires forall a :: a in shards ==> ShardOk(h, a) && a.shard.revision == revision && a.shard.runtime == runtime
    requires Distinct(Sha, shards) && AllDisjoint(shards) && BothKinds(shards)
    ensures var agg := AggregateFor(shards, revision, runtime); ExactPartition(h, agg, h.aggregate(agg), shards)
  {
    hide Sort;
    hide Union;
    hide StringList;
    hide IsSha256;
    hide AllDisjoint;
    hide BothKinds;
    hide Disjoint;
    var agg := AggregateFor(shards, revision, runtime);
    UnionIsListed(h, shards);
    assert |agg.receipts| == |shards|;
    forall e | e in agg.receipts ensures ExpectedOk(e) && exists a :: a in shards && a.contentSha == e.contentSha {
      var i :| 0 <= i < |shards| && agg.receipts[i] == e;
      assert shards[i] in shards && ShardOk(h, shards[i]) && e == EntryOf(shards[i]);
      ShaPrefix(h, shards[i]);
    }
    forall i, j | 0 <= i < j < |agg.receipts| ensures EntrySha(agg.receipts[i]) != EntrySha(agg.receipts[j]) {
      assert Sha(shards[i]) != Sha(shards[j]);
    }
    forall a | a in shards ensures exists e :: e in agg.receipts && e.contentSha == a.contentSha && Matches(agg, a.shard, e) {
      var i :| 0 <= i < |shards| && shards[i] == a;
      assert agg.receipts[i] == EntryOf(a) && agg.receipts[i] in agg.receipts;
    }
  }

  lemma ShaPrefix(h: Digests, a: Attested)
    requires h.Canonical() && ShardOk(h, a)
    ensures |a.contentSha| >= 7 && a.contentSha[..7] == "sha256:"
  {
    assert IsSha256(h.shard(a.shard));
  }

  /** The sorted union of disjoint inventories is a string list, and holds what they hold. */
  lemma UnionIsListed(h: Digests, shards: seq<Attested>)
    requires forall a :: a in shards ==> ShardOk(h, a)
    requires Distinct(Sha, shards) && AllDisjoint(shards) && BothKinds(shards)
    ensures StringList(Sort(Self, Union(shards))) && Covers(shards, Sort(Self, Union(shards)))
    ensures shards != []
  {
    hide ShardOk;
    hide Distinct;
    hide AllDisjoint;
    assert "full_suite" in KINDS;
    InventoriesHaveNoRepeats(h, shards);
    DisjointByIndex(shards);
    UnionNoRepeats(shards);
    var u := Union(shards);
    var sorted := Sort(Self, u);
    SortSorts(Self, u);
    forall x ensures x in sorted <==> exists a :: a in shards && x in a.shard.inventory {
      assert x in sorted <==> x in multiset(sorted);
      assert x in u <==> x in multiset(u);
      UnionHolds(shards, x);
      if j :| 0 <= j < |shards| && x in shards[j].shard.inventory { assert shards[j] in shards; }
      if a :| a in shards && x in a.shard.inventory {
        var j :| 0 <= j < |shards| && shards[j] == a;
      }
    }
    SortedUnionIsList(h, shards, sorted);
  }

  lemma SortedUnionIsList(h: Digests, shards: seq<Attested>, sorted: seq<string>)
    requires forall a :: a in shards ==> ShardOk(h, a)
    requires BothKinds(shards) && NoRepeats(Union(shards)) && sorted == Sort(Self, Union(shards))
    requires forall x :: x in sorted <==> exists a :: a in shards && x in a.shard.inventory
    ensures StringList(sorted)
  {
    hide Union;
    var u := Union(shards);
    assert Distinct(Self, u);
    SortSorts(Self, u);
    DistinctIsUnordered(Self, u, sorted);
    SortedDistinct(Self, sorted);
    SortOfSorted(Self, sorted);
    assert NoRepeats(sorted) by {
      forall i, j | 0 <= i < j < |sorted| ensures sorted[i] != sorted[j] {
        assert Self(sorted[i]) != Self(sorted[j]);
      }
    }
    assert "full_suite" in KINDS;
    var a :| a in shards && a.shard.kind == "full_suite";
    assert ShardOk(h, a) && a.shard.inventory[0] in sorted;
    forall x | x in sorted ensures x != "" {
      var b :| b in shards && x in b.shard.inventory;
      assert ShardOk(h, b);
    }
  }
}
