/** What the generator and the validator demand and write, field by field. */
module NoDebtFields {
  import opened Prelude
  import opened Ordering
  import opened NoDebt
  import opened NoDebtReceipt

  /** In the order of code points: `a` is a proper prefix of `b`, or is smaller where they first differ. */
  ghost predicate Before(a: string, b: string) {
    exists n: nat :: Splits(a, b, n)
  }

  predicate Splits(a: string, b: string, n: nat) {
    n <= |a| && n < |b| && a[..n] == b[..n] && (n < |a| ==> a[n] < b[n])
  }

  lemma {:induction false} LtMeans(a: string, b: string)
    ensures Lt(a, b) <==> Before(a, b)
  {
    if a == [] && b != [] {
      assert Splits(a, b, 0);
    }
    if a != [] && b != [] {
      LtMeans(a[1..], b[1..]);
      if Lt(a, b) {
        if a[0] < b[0] {
          assert Splits(a, b, 0);
        } else {
          var n: nat :| Splits(a[1..], b[1..], n);
          assert a[..n + 1] == [a[0]] + a[1..][..n] && b[..n + 1] == [b[0]] + b[1..][..n];
          assert Splits(a, b, n + 1);
        }
      }
      if n: nat :| Splits(a, b, n) {
        if n > 0 {
          assert a[0] == a[..n][0] == b[..n][0] == b[0];
          assert a[1..][..n - 1] == a[..n][1..] && b[1..][..n - 1] == b[..n][1..];
          assert Splits(a[1..], b[1..], n - 1);
        }
      }
    }
  }

  /** A string list is not empty, holds no empty string, and climbs strictly. */
  lemma StringListExactlyWhen(xs: seq<string>)
    ensures StringList(xs) <==> |xs| > 0 && "" !in xs && StrictlySorted(Self, xs)
  {
    if StringList(xs) {
      SortIsUnordered(Self, xs, xs);
    }
    if StrictlySorted(Self, xs) {
      SortOfSorted(Self, xs);
      forall i, j | 0 <= i < j < |xs| ensures xs[i] != xs[j] {
        assert Lt(Self(xs[i]), Self(xs[j]));
        LtTotal(xs[i], xs[j]);
      }
    }
    hide Sort;
  }

  /** A digest is its algorithm's name and sixty-four lower-case hexadecimal digits. */
  lemma DigestExactlyWhen(s: string)
    ensures IsSha256(s) <==> exists digits :: s == "sha256:" + digits && |digits| == 64 && Hexadecimal(digits)
  {
    if IsSha256(s) {
      assert s == "sha256:" + s[7..] && Hexadecimal(s[7..]);
    }
    if digits :| s == "sha256:" + digits && |digits| == 64 && Hexadecimal(digits) {
      assert s[..7] == "sha256:";
      assert s[7..] == digits;
      forall i | 7 <= i < 71 ensures '0' <= s[i] <= '9' || 'a' <= s[i] <= 'f' {
        assert s[i] == s[7..][i - 7] && s[i] in digits;
      }
    }
  }

  predicate Hexadecimal(s: string) {
    forall c :: c in s ==> c in "0123456789abcdef"
  }

  /** The receipt of a clean run of `command` over exactly `inventory`. */
  function CleanShard(kind: string, command: seq<string>, revision: Object, runtime: Object, inventory: seq<string>,
                      custody: string, terminal: string): Shard {
    Shard("m11.test-shard-receipt.v1", kind, command, 0, revision, runtime, inventory,
          Counts(|inventory|, |inventory|, 0, 0, 0, 0, 0, 0, 0), [], custody, terminal, true)
  }

  /** The accepted shards are exactly the clean runs, under their own digests. */
  lemma ShardAcceptedExactlyWhen(h: Digests, a: Attested)
    ensures var s := a.shard;
            ShardOk(h, a) <==>
              && a == Attested(CleanShard(s.kind, s.command, s.revision, s.runtime, s.inventory, s.custodyReceipt, s.terminalReceipt), h.shard(s))
              && (s.kind == "full_suite" || s.kind == "semantic_carrier")
              && |s.command| > 0 && "" !in s.command && |s.revision| > 0 && |s.runtime| > 0
              && |s.inventory| > 0 && "" !in s.inventory && StrictlySorted(Self, s.inventory)
              && IsSha256(s.custodyReceipt) && IsSha256(s.terminalReceipt)
  {
    StringListExactlyWhen(a.shard.inventory);
    hide StringList;
    hide IsSha256;
    hide StrictlySorted;
  }

  /** What an accepted aggregate is. */
  lemma AggregateAcceptedExactlyWhen(h: Digests, agg: Aggregate, aggSha: string)
    ensures AggregateOk(h, agg, aggSha) <==>
      && agg.schema == "m11.no-debt-aggregate.v1" && aggSha == h.aggregate(agg)
      && |agg.revision| > 0 && |agg.runtime| > 0 && |agg.receipts| > 0
      && |agg.expectedInventory| > 0 && "" !in agg.expectedInventory && StrictlySorted(Self, agg.expectedInventory)
      && (forall i, j :: 0 <= i < j < |agg.receipts| ==> agg.receipts[i].contentSha != agg.receipts[j].contentSha)
      && forall i :: 0 <= i < |agg.receipts| ==> Asked(agg.receipts[i])
  {
    StringListExactlyWhen(agg.expectedInventory);
    forall e: Expected ensures ExpectedOk(e) <==> Asked(e) {
      StringListExactlyWhen(e.inventory);
    }
    hide StringList;
    hide StrictlySorted;
    hide ExpectedOk;
    hide Asked;
    assert forall i :: 0 <= i < |agg.receipts| ==> EntrySha(agg.receipts[i]) == agg.receipts[i].contentSha;
  }

  /** One receipt the aggregate asks for. */
  ghost predicate Asked(e: Expected) {
    && (e.kind == "full_suite" || e.kind == "semantic_carrier")
    && "sha256:" <= e.contentSha
    && |e.command| > 0 && "" !in e.command
    && |e.inventory| > 0 && "" !in e.inventory && StrictlySorted(Self, e.inventory)
  }

  /** Exactly what is accepted, in the fields of the aggregate and the shards: every shard is a well-formed one of the
      aggregate's revision and runtime that one of its entries asks for by kind, digest, command and inventory;
      every entry is supplied; no shard is given twice and no test run twice; both kinds are there; and
      together they ran the expected inventory. */
  lemma PartitionExactlyWhen(h: Digests, agg: Aggregate, aggSha: string, shards: seq<Attested>)
    ensures ExactPartition(h, agg, aggSha, shards) <==>
      && AggregateOk(h, agg, aggSha)
      && (forall a :: a in shards ==> ShardOk(h, a) && Wanted(agg, a))
      && (forall i, j :: 0 <= i < j < |shards| ==> shards[i].contentSha != shards[j].contentSha)
      && (forall e :: e in agg.receipts ==> exists a :: a in shards && a.contentSha == e.contentSha)
      && (forall a, b, x :: a in shards && b in shards && x in a.shard.inventory && x in b.shard.inventory ==> a.contentSha == b.contentSha)
      && (exists a :: a in shards && a.shard.kind == "full_suite") && (exists a :: a in shards && a.shard.kind == "semantic_carrier")
      && (forall x :: x in agg.expectedInventory <==> exists a :: a in shards && x in a.shard.inventory)
  {
    WantedMeans(agg, shards);
    OnceMeans(shards);
    ApartMeans(shards);
    BothKindsMean(shards);
    hide AggregateOk;
    hide ShardOk;
    hide Wanted;
    hide AllExpected;
    hide Distinct;
    hide AllDisjoint;
    hide BothKinds;
  }

  /** The aggregate asks for this shard. */
  predicate Wanted(agg: Aggregate, a: Attested) {
    && Expected(a.shard.kind, a.contentSha, a.shard.command, a.shard.inventory) in agg.receipts
    && a.shard.revision == agg.revision && a.shard.runtime == agg.runtime
  }

  lemma WantedMeans(agg: Aggregate, shards: seq<Attested>)
    ensures AllExpected(agg, shards) <==> forall a :: a in shards ==> Wanted(agg, a)
  {
    forall a | a in shards
      ensures Wanted(agg, a) <==> exists e :: e in agg.receipts && e.contentSha == a.contentSha && Matches(agg, a.shard, e)
    {
      if e :| e in agg.receipts && e.contentSha == a.contentSha && Matches(agg, a.shard, e) {
        assert e == Expected(a.shard.kind, a.contentSha, a.shard.command, a.shard.inventory);
      }
      if Wanted(agg, a) {
        var e := Expected(a.shard.kind, a.contentSha, a.shard.command, a.shard.inventory);
        assert e in agg.receipts && e.contentSha == a.contentSha && Matches(agg, a.shard, e);
      }
    }
    hide Wanted;
    hide Matches;
  }

  lemma OnceMeans(shards: seq<Attested>)
    ensures Distinct(Sha, shards) <==> forall i, j :: 0 <= i < j < |shards| ==> shards[i].contentSha != shards[j].contentSha
  {
    assert forall i :: 0 <= i < |shards| ==> Sha(shards[i]) == shards[i].contentSha;
  }

  lemma ApartMeans(shards: seq<Attested>)
    ensures AllDisjoint(shards) <==>
      forall a, b, x :: a in shards && b in shards && x in a.shard.inventory && x in b.shard.inventory ==> a.contentSha == b.contentSha
  {
  }

  lemma BothKindsMean(shards: seq<Attested>)
    ensures BothKinds(shards) <==>
      (exists a :: a in shards && a.shard.kind == "full_suite") && (exists a :: a in shards && a.shard.kind == "semantic_carrier")
  {
    assert "full_suite" in KINDS && "semantic_carrier" in KINDS;
  }

  /** The source entry reports this shard. */
  predicate Reports(h: Digests, s: Source, a: Attested) {
    && s.kind == a.shard.kind && s.contentSha == a.contentSha && s.command == a.shard.command
    && s.inventoryCount == |a.shard.inventory| && s.inventorySha == h.inventory(a.shard.inventory)
    && s.custodyReceipt == a.shard.custodyReceipt && s.terminalReceipt == a.shard.terminalReceipt
  }

  lemma SourceReports(h: Digests, a: Attested)
    ensures Reports(h, SourceOf(h, a), a)
  {
  }

  lemma ReportsSha(h: Digests, s: Source, a: Attested)
    requires Reports(h, s, a)
    ensures SourceSha(s) == Sha(a)
  {
  }

  /** The sources are the shards, each once, by climbing digest. */
  lemma SourcesReport(h: Digests, shards: seq<Attested>, sorted: seq<Attested>, sources: seq<Source>)
    requires Distinct(Sha, shards) && sorted == Sort(Sha, shards)
    requires |sources| == |sorted| && forall i :: 0 <= i < |sorted| ==> Reports(h, sources[i], sorted[i])
    ensures |sources| == |shards| && StrictlySorted(SourceSha, sources)
    ensures forall a :: a in shards ==> exists s :: s in sources && Reports(h, s, a)
    ensures forall s :: s in sources ==> exists a :: a in shards && Reports(h, s, a)
  {
    SortIsUnordered(Sha, shards, shards);
    SortSorts(Sha, shards);
    MembersAreUnordered(shards, sorted);
    assert |multiset(sorted)| == |multiset(shards)|;
    hide Sort;
    hide Lt;
    hide Reports;
    forall i, j | 0 <= i < j < |sources| ensures Lt(SourceSha(sources[i]), SourceSha(sources[j])) {
      ReportsSha(h, sources[i], sorted[i]);
      ReportsSha(h, sources[j], sorted[j]);
      assert Lt(Sha(sorted[i]), Sha(sorted[j]));
    }
    forall a | a in shards ensures exists s :: s in sources && Reports(h, s, a) {
      var i :| 0 <= i < |sorted| && sorted[i] == a;
      assert sources[i] in sources;
    }
    forall s | s in sources ensures exists a :: a in shards && Reports(h, s, a) {
      var i :| 0 <= i < |sources| && sources[i] == s;
      assert sorted[i] in sorted;
    }
  }

  /** The sources of an emitted receipt are the supplied shards, each once, by climbing digest, with what they
      ran, how much, and where their custody lies. */
  lemma ReceiptMeans(h: Digests, agg: Aggregate, aggSha: string, shards: seq<Attested>)
    requires ExactPartition(h, agg, aggSha, shards)
    ensures var r, n := ReceiptOf(h, agg, aggSha, shards), |agg.expectedInventory|;
            && r == Receipt("m11.no-debt-receipt.v1", aggSha, agg.revision, agg.runtime, r.sources, n, h.inventory(agg.expectedInventory),
                            Counts(n, n, 0, 0, 0, 0, 0, 0, 0), Debt(0, 0, 0, 0), true)
            && |r.sources| == |shards| && StrictlySorted(SourceSha, r.sources)
            && (forall a :: a in shards ==> exists s :: s in r.sources && Reports(h, s, a))
            && (forall s :: s in r.sources ==> exists a :: a in shards && Reports(h, s, a))
  {
    hide AggregateOk;
    hide Sort;
    hide SumCounts;
    hide StrictlySorted;
    hide Reports;
    hide ShardOk;
    hide AllExpected;
    hide AllDisjoint;
    hide AllSupplied;
    hide BothKinds;
    hide Covers;
    hide Distinct;
    hide Union;
    CountsAddUp(h, agg, aggSha, shards);
    var sorted, r := Sort(Sha, shards), ReceiptOf(h, agg, aggSha, shards);
    forall i | 0 <= i < |sorted| ensures Reports(h, r.sources[i], sorted[i]) {
      SourceReports(h, sorted[i]);
    }
    SourcesReport(h, shards, sorted, r.sources);
  }

  // ---- The validator --------------------------------------------------------------

  /** What an accepted receipt is: clean counts that its sources add up to. */
  lemma ReceiptAcceptedExactlyWhen(h: Digests, r: Receipt, sha: string)
    ensures ReceiptOk(h, r, sha) <==>
      && r == Receipt("m11.no-debt-receipt.v1", r.aggregateSha, r.revision, r.runtime, r.sources, TotalCount(r.sources), r.inventorySha,
                      Counts(TotalCount(r.sources), TotalCount(r.sources), 0, 0, 0, 0, 0, 0, 0), Debt(0, 0, 0, 0), true)
      && sha == h.receipt(r) && IsSha256(r.aggregateSha) && IsSha256(r.inventorySha)
      && r.revision != map[] && r.runtime != map[]
      && StrictlySorted(SourceSha, r.sources) && AllAccounted(r.sources)
      && HasKind(r.sources, "full_suite") && HasKind(r.sources, "semantic_carrier")
  {
    AccountedMeans(r.sources);
    hide IsSha256;
    hide StrictlySorted;
    hide SourceOk;
    hide AllAccounted;
    hide HasKind;
    hide TotalCount;
    hide SourceKinds;
  }

  ghost predicate HasKind(sources: seq<Source>, kind: string) {
    exists i :: 0 <= i < |sources| && sources[i].kind == kind
  }

  ghost predicate AllAccounted(sources: seq<Source>) {
    forall i :: 0 <= i < |sources| ==> Accounted(sources[i])
  }

  lemma AccountedMeans(sources: seq<Source>)
    ensures sources != [] && (forall i :: 0 <= i < |sources| ==> SourceOk(sources[i])) && SourceKinds(sources) == KINDS <==>
      AllAccounted(sources) && HasKind(sources, "full_suite") && HasKind(sources, "semantic_carrier")
    ensures AllAccounted(sources) && sources != [] ==> TotalCount(sources) > 0
  {
    forall i | 0 <= i < |sources| ensures SourceOk(sources[i]) <==> Accounted(sources[i]) {
      SourceMeans(sources[i]);
    }
    if AllAccounted(sources) {
      KindsMean(sources);
      TotalIsPositive(sources);
    }
    hide SourceOk;
    hide Accounted;
    hide TotalCount;
    hide SourceKinds;
  }

  predicate Accounted(s: Source) {
    && (s.kind == "full_suite" || s.kind == "semantic_carrier") && s.inventoryCount > 0
    && |s.command| > 0 && "" !in s.command
    && IsSha256(s.contentSha) && IsSha256(s.inventorySha) && IsSha256(s.custodyReceipt) && IsSha256(s.terminalReceipt)
  }

  lemma SourceMeans(s: Source)
    ensures SourceOk(s) <==> Accounted(s)
  {
    hide IsSha256;
  }

  lemma KindsMean(sources: seq<Source>)
    requires forall i :: 0 <= i < |sources| ==> Accounted(sources[i])
    ensures SourceKinds(sources) == KINDS <==> HasKind(sources, "full_suite") && HasKind(sources, "semantic_carrier")
  {
  }

  lemma {:induction false} TotalIsPositive(sources: seq<Source>)
    requires forall i :: 0 <= i < |sources| ==> Accounted(sources[i])
    ensures TotalCount(sources) >= |sources|
  {
    if sources != [] {
      TotalIsPositive(sources[..|sources| - 1]);
    }
  }
}
