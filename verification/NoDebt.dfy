/** `scripts/generate_m11_no_debt.py`: the shard aggregator and the independent validator of what
    it emits. Values arrive with their JSON types already right; contents are unconstrained. */
module NoDebt {
  import opened Prelude
  import opened Ordering

  const SHARD_SCHEMA := "m11.test-shard-receipt.v1"
  const AGGREGATE_SCHEMA := "m11.no-debt-aggregate.v1"
  const OUTPUT_SCHEMA := "m11.no-debt-receipt.v1"
  const KINDS: set<string> := {"full_suite", "semantic_carrier"}

  type Object = map<string, string>

  datatype Counts = Counts(collected: int, passed: int, failed: int, errors: int, skipped: int,
                           xfailed: int, xpassed: int, deselected: int, debt: int)

  /** Everything of a shard receipt but its own hash. */
  datatype Shard = Shard(
    schema: string, kind: string, command: seq<string>, exitCode: int, revision: Object, runtime: Object,
    inventory: seq<string>, counts: Counts, debt: seq<string>,
    custodyReceipt: string, terminalReceipt: string, exactInventory: bool)

  datatype Attested = Attested(shard: Shard, contentSha: string)

  datatype Expected = Expected(kind: string, contentSha: string, command: seq<string>, inventory: seq<string>)

  datatype Aggregate = Aggregate(schema: string, revision: Object, runtime: Object,
                                 expectedInventory: seq<string>, receipts: seq<Expected>)

  datatype Source = Source(kind: string, contentSha: string, command: seq<string>, inventoryCount: int,
                           inventorySha: string, custodyReceipt: string, terminalReceipt: string)

  datatype Debt = Debt(xfail: int, xpass: int, skip: int, unresolved: int)

  datatype Receipt = Receipt(
    schema: string, aggregateSha: string, revision: Object, runtime: Object, sources: seq<Source>,
    inventoryCount: int, inventorySha: string, counts: Counts, debt: Debt, passed: bool)

  predicate IsSha256(s: string) {
    && |s| == 71 && s[..7] == "sha256:"
    && forall i :: 7 <= i < 71 ==> '0' <= s[i] <= '9' || 'a' <= s[i] <= 'f'
  }

  /** `_digest` of each kind of value: some canonical sha256 text. */
  datatype Digests = Digests(
    shard: Shard -> string, aggregate: Aggregate -> string, inventory: seq<string> -> string, receipt: Receipt -> string)
  {
    ghost predicate Canonical() {
      && (forall x :: IsSha256(shard(x))) && (forall x :: IsSha256(aggregate(x)))
      && (forall x :: IsSha256(inventory(x))) && (forall x :: IsSha256(receipt(x)))
    }
  }

  function Self(s: string): string { s }

  /** `_strings(..., nonempty=True)`: non-empty strings, in strictly increasing order. */
  predicate StringList(xs: seq<string>) {
    xs != [] && (forall x :: x in xs ==> x != "") && Sort(Self, xs) == xs && NoRepeats(xs)
  }

  /** `len(value) == len(set(value))` */
  predicate NoRepeats(xs: seq<string>) {
    forall i, j :: 0 <= i < j < |xs| ==> xs[i] != xs[j]
  }

  predicate Command(xs: seq<string>) {
    xs != [] && forall x :: x in xs ==> x != ""
  }

  predicate NonNegative(c: Counts) {
    c.collected >= 0 && c.passed >= 0 && c.failed >= 0 && c.errors >= 0 && c.skipped >= 0
    && c.xfailed >= 0 && c.xpassed >= 0 && c.deselected >= 0 && c.debt >= 0
  }

  /** Everything ran and passed, nothing else is counted. */
  predicate CleanRun(c: Counts, n: int) {
    c == Counts(n, n, 0, 0, 0, 0, 0, 0, 0)
  }

  /** `_validate_shard` accepts. */
  predicate ShardOk(h: Digests, a: Attested) {
    var s := a.shard;
    && s.schema == SHARD_SCHEMA && s.kind in KINDS && a.contentSha == h.shard(s)
    && Command(s.command) && s.revision != map[] && s.runtime != map[] && StringList(s.inventory)
    && NonNegative(s.counts) && s.exitCode == 0 && s.exactInventory
    && IsSha256(s.custodyReceipt) && IsSha256(s.terminalReceipt)
    && CleanRun(s.counts, |s.inventory|) && s.debt == []
  }

  /** One entry of the aggregate's receipt list, on its own. */
  predicate ExpectedOk(e: Expected) {
    e.kind in KINDS && |e.contentSha| >= 7 && e.contentSha[..7] == "sha256:" && Command(e.command) && StringList(e.inventory)
  }

  /** A shard delivers what the entry of the same hash asks for. */
  predicate Matches(agg: Aggregate, s: Shard, e: Expected) {
    s.kind == e.kind && s.command == e.command && s.inventory == e.inventory
    && s.revision == agg.revision && s.runtime == agg.runtime
  }

  datatype Error =
    | AggregateInvalid | EntryInvalid | DuplicateEntry | ShardInvalid | DuplicateShard | UnknownShard
    | ShardDiffers | InventoriesOverlap | ShardsMissing | KindsMissing | UnionDiffers

  function Sha(a: Attested): string { a.contentSha }

  function SourceSha(s: Source): string { s.contentSha }

  function EntrySha(e: Expected): string { e.contentSha }

  function SourceOf(h: Digests, a: Attested): Source {
    Source(a.shard.kind, a.contentSha, a.shard.command, |a.shard.inventory|, h.inventory(a.shard.inventory),
           a.shard.custodyReceipt, a.shard.terminalReceipt)
  }

  function Plus(a: Counts, b: Counts): Counts {
    Counts(a.collected + b.collected, a.passed + b.passed, a.failed + b.failed, a.errors + b.errors, a.skipped + b.skipped,
           a.xfailed + b.xfailed, a.xpassed + b.xpassed, a.deselected + b.deselected, a.debt + b.debt)
  }

  const ZERO := Counts(0, 0, 0, 0, 0, 0, 0, 0, 0)

  /** The per-key sums over all shards. */
  function SumCounts(shards: seq<Attested>): Counts {
    if shards == [] then ZERO
    else Plus(SumCounts(shards[..|shards| - 1]), shards[|shards| - 1].shard.counts)
  }

  /** All inventories, one after the other. */
  function Union(shards: seq<Attested>): seq<string> {
    if shards == [] then []
    else Union(shards[..|shards| - 1]) + shards[|shards| - 1].shard.inventory
  }

  // ---- What acceptance means, without any order ------------------------------

  ghost predicate AggregateOk(h: Digests, agg: Aggregate, aggSha: string) {
    && agg.schema == AGGREGATE_SCHEMA && aggSha == h.aggregate(agg)
    && agg.revision != map[] && agg.runtime != map[] && StringList(agg.expectedInventory)
    && agg.receipts != []
    && (forall e :: e in agg.receipts ==> ExpectedOk(e))
    && Distinct(EntrySha, agg.receipts)
  }

  predicate Disjoint(a: Attested, b: Attested) {
    forall x :: x in a.shard.inventory ==> x !in b.shard.inventory
  }

  /** The shards are exactly the expected receipts, each once, and their inventories cut the
      expected inventory into disjoint parts. */
  ghost predicate ExactPartition(h: Digests, agg: Aggregate, aggSha: string, shards: seq<Attested>) {
    && AggregateOk(h, agg, aggSha)
    && (forall a :: a in shards ==> ShardOk(h, a))
    && Distinct(Sha, shards)
    && AllExpected(agg, shards)
    && AllSupplied(agg, shards)
    && AllDisjoint(shards)
    && BothKinds(shards)
    && Covers(shards, agg.expectedInventory)
  }

  /** Every shard is one the aggregate asks for, with the content it asks for. */
  ghost predicate AllExpected(agg: Aggregate, shards: seq<Attested>) {
    forall a :: a in shards ==> exists e :: e in agg.receipts && e.contentSha == a.contentSha && Matches(agg, a.shard, e)
  }

  /** Every receipt the aggregate asks for is supplied. */
  ghost predicate AllSupplied(agg: Aggregate, shards: seq<Attested>) {
    forall e :: e in agg.receipts ==> exists a :: a in shards && a.contentSha == e.contentSha
  }

  ghost predicate AllDisjoint(shards: seq<Attested>) {
    forall a, b :: a in shards && b in shards && a.contentSha != b.contentSha ==> Disjoint(a, b)
  }

  ghost predicate BothKinds(shards: seq<Attested>) {
    forall k :: k in KINDS ==> exists a :: a in shards && a.shard.kind == k
  }

  ghost predicate Covers(shards: seq<Attested>, inventory: seq<string>) {
    forall x :: x in inventory <==> exists a :: a in shards && x in a.shard.inventory
  }

  /** The receipt the generator builds. */
  function ReceiptOf(h: Digests, agg: Aggregate, aggSha: string, shards: seq<Attested>): Receipt {
    var sorted := Sort(Sha, shards);
    Receipt(OUTPUT_SCHEMA, aggSha, agg.revision, agg.runtime, seq(|sorted|, i requires 0 <= i < |sorted| => SourceOf(h, sorted[i])),
            |agg.expectedInventory|, h.inventory(agg.expectedInventory), SumCounts(shards), Debt(0, 0, 0, 0), true)
  }

  // ---- generate_no_debt_receipt ------------------------------------------------

  lemma {:induction false} UnionHolds(shards: seq<Attested>, x: string)
    ensures x in Union(shards) <==> exists i :: 0 <= i < |shards| && x in shards[i].shard.inventory
  {
    if shards != [] {
      var n := |shards| - 1;
      UnionHolds(shards[..n], x);
      assert forall i :: 0 <= i < n ==> shards[..n][i] == shards[i];
    }
  }

  lemma UnionSnoc(shards: seq<Attested>, i: nat)
    requires i < |shards|
    ensures Union(shards[..i + 1]) == Union(shards[..i]) + shards[i].shard.inventory
  {
    assert shards[..i + 1][..i] == shards[..i];
  }

  /** Two duplicate-free lists of strings sort to the same list iff they hold the same strings. */
  lemma SortIsContent(xs: seq<string>, ys: seq<string>)
    requires NoRepeats(xs) && NoRepeats(ys) && Sort(Self, ys) == ys
    ensures Sort(Self, xs) == ys <==> forall x :: x in xs <==> x in ys
  {
    SortSorts(Self, xs);
    SortIsUnordered(Self, xs, xs);
    SortIsUnordered(Self, ys, ys);
    var a := Sort(Self, xs);
    forall x ensures x in a <==> x in xs {
      assert x in a <==> x in multiset(a);
      assert x in xs <==> x in multiset(xs);
    }
    if forall x :: x in xs <==> x in ys {
      StrictlySortedUnique(Self, a, ys);
    }
  }

  /** `expected_by_hash` holds exactly the entries, under their hashes. */
  ghost predicate Indexes(expected: map<string, Expected>, entries: seq<Expected>) {
    && (forall e :: e in entries ==> e.contentSha in expected && expected[e.contentSha] == e)
    && (forall k :: k in expected ==> expected[k].contentSha == k && expected[k] in entries)
  }

  /** The loop over `aggregate.receipts`. */
  method CheckEntries(entries: seq<Expected>) returns (r: Result<map<string, Expected>, Error>)
    ensures r.Ok? <==> (forall e :: e in entries ==> ExpectedOk(e)) && Distinct(EntrySha, entries)
    ensures r.Ok? ==> Indexes(r.value, entries)
  {
    hide ExpectedOk;
    var expected: map<string, Expected> := map[];
    for i := 0 to |entries|
      invariant forall j :: 0 <= j < i ==> ExpectedOk(entries[j])
      invariant forall j, m :: 0 <= j < m < i ==> entries[j].contentSha != entries[m].contentSha
      invariant forall j :: 0 <= j < i ==> entries[j].contentSha in expected && expected[entries[j].contentSha] == entries[j]
      invariant forall k :: k in expected ==> expected[k].contentSha == k && expected[k] in entries[..i]
    {
      var e := entries[i];
      if !ExpectedOk(e) {
        assert e in entries;
        return Err(EntryInvalid);
      }
      if e.contentSha in expected {
        ghost var j :| 0 <= j < i && entries[j] == expected[e.contentSha];
        assert EntrySha(entries[j]) == EntrySha(entries[i]);
        return Err(DuplicateEntry);
      }
      assert entries[..i + 1] == entries[..i] + [e];
      expected := expected[e.contentSha := e];
    }
    assert entries[..|entries|] == entries;
    r := Ok(expected);
  }

  /** The aggregate's own checks. */
  method CheckAggregate(h: Digests, agg: Aggregate, aggSha: string) returns (r: Result<map<string, Expected>, Error>)
    ensures r.Ok? <==> AggregateOk(h, agg, aggSha)
    ensures r.Ok? ==> Indexes(r.value, agg.receipts)
  {
    hide ExpectedOk;
    hide StringList;
    if agg.schema != AGGREGATE_SCHEMA || aggSha != h.aggregate(agg) || agg.revision == map[] || agg.runtime == map[]
       || !StringList(agg.expectedInventory) || agg.receipts == [] {
      return Err(AggregateInvalid);
    }
    r := CheckEntries(agg.receipts);
  }

  /** The shards before `i` have distinct hashes, each is the expected one of its hash, and their
      inventories are pairwise disjoint. */
  ghost predicate Consumed(agg: Aggregate, expected: map<string, Expected>, shards: seq<Attested>, i: nat)
    requires i <= |shards|
  {
    && (forall j, m :: 0 <= j < m < i ==> shards[j].contentSha != shards[m].contentSha)
    && MatchedUpTo(agg, expected, shards, i)
    && DisjointUpTo(shards, i)
  }

  ghost predicate MatchedUpTo(agg: Aggregate, expected: map<string, Expected>, shards: seq<Attested>, i: nat)
    requires i <= |shards|
  {
    forall j :: 0 <= j < i ==> shards[j].contentSha in expected && Matches(agg, shards[j].shard, expected[shards[j].contentSha])
  }

  ghost predicate DisjointUpTo(shards: seq<Attested>, i: nat)
    requires i <= |shards|
  {
    forall j, m :: 0 <= j < m < i ==> Disjoint(shards[j], shards[m])
  }

  function Hashes(shards: seq<Attested>, i: nat): set<string>
    requires i <= |shards|
  {
    set j | 0 <= j < i :: shards[j].contentSha
  }

  function Kinds(shards: seq<Attested>, i: nat): set<string>
    requires i <= |shards|
  {
    set j | 0 <= j < i :: shards[j].shard.kind
  }

  /** Some shard before `i` carries `x`. */
  lemma UnionUpTo(shards: seq<Attested>, i: nat, x: string)
    requires i <= |shards|
    ensures x in Union(shards[..i]) <==> exists j :: 0 <= j < i && x in shards[j].shard.inventory
  {
    UnionHolds(shards[..i], x);
    assert forall j :: 0 <= j < i ==> shards[..i][j] == shards[j];
  }

  predicate Overlaps(seen: seq<string>, inventory: seq<string>) {
    exists x :: x in inventory && x in seen
  }

  lemma OverlapMeaning(shards: seq<Attested>, i: nat)
    requires i < |shards|
    ensures Overlaps(Union(shards[..i]), shards[i].shard.inventory) <==> exists j :: 0 <= j < i && !Disjoint(shards[j], shards[i])
  {
    if Overlaps(Union(shards[..i]), shards[i].shard.inventory) {
      var x :| x in shards[i].shard.inventory && x in Union(shards[..i]);
      UnionUpTo(shards, i, x);
      var j :| 0 <= j < i && x in shards[j].shard.inventory;
      assert !Disjoint(shards[j], shards[i]);
    }
    if j :| 0 <= j < i && !Disjoint(shards[j], shards[i]) {
      var x :| x in shards[j].shard.inventory && x in shards[i].shard.inventory;
      UnionUpTo(shards, i, x);
    }
  }

  /** The loop over the supplied shards. */
  method Consume(agg: Aggregate, expected: map<string, Expected>, shards: seq<Attested>)
    returns (r: Result<(set<string>, seq<string>, set<string>), Error>)
    ensures r.Ok? <==> Consumed(agg, expected, shards, |shards|)
    ensures r.Ok? ==>
              && r.value.0 == Hashes(shards, |shards|)
              && r.value.1 == Union(shards)
              && r.value.2 == Kinds(shards, |shards|)
  {
    hide Matches;
    hide Union;
    hide Disjoint;
    hide Overlaps;
    var supplied: set<string> := {};
    var seen: seq<string> := [];
    var kinds: set<string> := {};
    EmptyUnion(shards);
    for i := 0 to |shards|
      invariant Consumed(agg, expected, shards, i)
      invariant supplied == Hashes(shards, i)
      invariant kinds == Kinds(shards, i)
      invariant seen == Union(shards[..i])
    {
      var a := shards[i];
      if a.contentSha in supplied {
        return Err(DuplicateShard);
      }
      supplied := supplied + {a.contentSha};
      if a.contentSha !in expected {
        return Err(UnknownShard);
      }
      if !Matches(agg, a.shard, expected[a.contentSha]) {
        return Err(ShardDiffers);
      }
      OverlapMeaning(shards, i);
      if Overlaps(seen, a.shard.inventory) {
        return Err(InventoriesOverlap);
      }
      UnionSnoc(shards, i);
      seen := seen + a.shard.inventory;
      kinds := kinds + {a.shard.kind};
    }
    assert shards[..|shards|] == shards;
    r := Ok((supplied, seen, kinds));
  }

  lemma EmptyUnion(shards: seq<Attested>)
    ensures Union(shards[..0]) == []
  {
  }

  method CheckShards(h: Digests, shards: seq<Attested>) returns (ok: bool)
    ensures ok <==> forall a :: a in shards ==> ShardOk(h, a)
  {
    hide ShardOk;
    for i := 0 to |shards|
      invariant forall j :: 0 <= j < i ==> ShardOk(h, shards[j])
    {
      if !ShardOk(h, shards[i]) {
        assert shards[i] in shards;
        return false;
      }
    }
    ok := true;
  }

  /** What the loops compute, read as a condition on the shards. */
  ghost predicate Completed(agg: Aggregate, expected: map<string, Expected>, shards: seq<Attested>) {
    && Consumed(agg, expected, shards, |shards|)
    && Hashes(shards, |shards|) == expected.Keys
    && Kinds(shards, |shards|) == KINDS
    && Sort(Self, Union(shards)) == agg.expectedInventory
  }

  /** Disjoint duplicate-free inventories concatenate without repetition. */
  lemma {:induction false} UnionNoRepeats(shards: seq<Attested>)
    requires forall j :: 0 <= j < |shards| ==> NoRepeats(shards[j].shard.inventory)
    requires DisjointUpTo(shards, |shards|)
    ensures NoRepeats(Union(shards))
  {
    if shards != [] {
      var n := |shards| - 1;
      UnionNoRepeats(shards[..n]);
      var u, v := Union(shards[..n]), shards[n].shard.inventory;
      forall i, j | 0 <= i < |u| && 0 <= j < |v| ensures u[i] != v[j] {
        assert u[i] in u;
        UnionUpTo(shards, n, u[i]);
        var m :| 0 <= m < n && u[i] in shards[m].shard.inventory;
        assert Disjoint(shards[m], shards[n]);
      }
    }
  }

  lemma UnionIsExpected(agg: Aggregate, shards: seq<Attested>)
    requires StringList(agg.expectedInventory) && NoRepeats(Union(shards))
    ensures Sort(Self, Union(shards)) == agg.expectedInventory
            <==> Covers(shards, agg.expectedInventory)
  {
    forall x ensures x in Union(shards) <==> exists a :: a in shards && x in a.shard.inventory {
      UnionHolds(shards, x);
      if j :| 0 <= j < |shards| && x in shards[j].shard.inventory { assert shards[j] in shards; }
      if a :| a in shards && x in a.shard.inventory {
        var j :| 0 <= j < |shards| && shards[j] == a;
      }
    }
    SortIsContent(Union(shards), agg.expectedInventory);
  }

  lemma InventoriesHaveNoRepeats(h: Digests, shards: seq<Attested>)
    requires forall a :: a in shards ==> ShardOk(h, a)
    ensures forall j :: 0 <= j < |shards| ==> NoRepeats(shards[j].shard.inventory) && shards[j].shard.kind in KINDS
  {
    forall j | 0 <= j < |shards| ensures NoRepeats(shards[j].shard.inventory) && shards[j].shard.kind in KINDS {
      assert shards[j] in shards;
      assert ShardOk(h, shards[j]);
    }
  }

  lemma MatchesByIndex(agg: Aggregate, shards: seq<Attested>, expected: map<string, Expected>)
    requires Indexes(expected, agg.receipts)
    ensures MatchedUpTo(agg, expected, shards, |shards|) <==> AllExpected(agg, shards)
  {
    hide Matches;
  }

  lemma HashesByIndex(agg: Aggregate, shards: seq<Attested>, expected: map<string, Expected>)
    requires Indexes(expected, agg.receipts)
    requires MatchedUpTo(agg, expected, shards, |shards|)
    ensures Hashes(shards, |shards|) == expected.Keys <==> AllSupplied(agg, shards)
  {
    var hashes := Hashes(shards, |shards|);
    assert forall a :: a in shards ==> a.contentSha in hashes;
    if AllSupplied(agg, shards) {
      forall k | k in expected ensures k in hashes {
        assert expected[k] in agg.receipts;
      }
      assert hashes == expected.Keys;
    }
    if hashes == expected.Keys {
      forall e | e in agg.receipts ensures exists a :: a in shards && a.contentSha == e.contentSha {
        assert e.contentSha in hashes;
        var j :| 0 <= j < |shards| && shards[j].contentSha == e.contentSha;
        assert shards[j] in shards;
      }
    }
  }

  lemma DisjointByIndex(shards: seq<Attested>)
    requires Distinct(Sha, shards)
    ensures DisjointUpTo(shards, |shards|) <==> AllDisjoint(shards)
  {
    if DisjointUpTo(shards, |shards|) {
      forall a, b | a in shards && b in shards && a.contentSha != b.contentSha ensures Disjoint(a, b) {
        var j :| 0 <= j < |shards| && shards[j] == a;
        var m :| 0 <= m < |shards| && shards[m] == b;
        if j < m { assert Disjoint(shards[j], shards[m]); } else { assert Disjoint(shards[m], shards[j]); }
      }
    }
    if AllDisjoint(shards) {
      forall j, m | 0 <= j < m < |shards| ensures Disjoint(shards[j], shards[m]) {
        assert shards[j] in shards && shards[m] in shards;
        assert Sha(shards[j]) != Sha(shards[m]);
      }
    }
  }

  lemma KindsByIndex(shards: seq<Attested>)
    requires forall j :: 0 <= j < |shards| ==> shards[j].shard.kind in KINDS
    ensures Kinds(shards, |shards|) == KINDS <==> BothKinds(shards)
  {
    var kinds := Kinds(shards, |shards|);
    assert forall a :: a in shards ==> a.shard.kind in kinds;
    if BothKinds(shards) {
      assert kinds == KINDS;
    }
    if kinds == KINDS {
      forall k | k in KINDS ensures exists a :: a in shards && a.shard.kind == k {
        assert k in kinds;
        var j :| 0 <= j < |shards| && shards[j].shard.kind == k;
        assert shards[j] in shards;
      }
    }
  }

  lemma InventoryIsListed(h: Digests, agg: Aggregate, aggSha: string)
    requires AggregateOk(h, agg, aggSha)
    ensures StringList(agg.expectedInventory)
  {
    hide StringList;
  }

  /** Without repeated shards, each of the loops' conditions says its unordered one. */
  lemma ByIndex(h: Digests, agg: Aggregate, aggSha: string, shards: seq<Attested>, expected: map<string, Expected>)
    requires AggregateOk(h, agg, aggSha) && Indexes(expected, agg.receipts)
    requires forall a :: a in shards ==> ShardOk(h, a)
    requires Distinct(Sha, shards)
    ensures DisjointUpTo(shards, |shards|) <==> AllDisjoint(shards)
    ensures AllExpected(agg, shards) ==> (Hashes(shards, |shards|) == expected.Keys <==> AllSupplied(agg, shards))
    ensures AllDisjoint(shards) ==> (Sort(Self, Union(shards)) == agg.expectedInventory <==> Covers(shards, agg.expectedInventory))
  {
    hide *;
    InventoriesHaveNoRepeats(h, shards);
    InventoryIsListed(h, agg, aggSha);
    MatchesByIndex(agg, shards, expected);
    DisjointByIndex(shards);
    if AllExpected(agg, shards) {
      HashesByIndex(agg, shards, expected);
    }
    if AllDisjoint(shards) {
      UnionNoRepeats(shards);
      UnionIsExpected(agg, shards);
    }
  }

  /** The loops accept exactly when the unordered conditions hold. */
  lemma CompletedIsPartition(h: Digests, agg: Aggregate, aggSha: string, shards: seq<Attested>, expected: map<string, Expected>)
    requires AggregateOk(h, agg, aggSha) && Indexes(expected, agg.receipts)
    requires forall a :: a in shards ==> ShardOk(h, a)
    ensures Completed(agg, expected, shards) <==> ExactPartition(h, agg, aggSha, shards)
  {
    hide *;
    InventoriesHaveNoRepeats(h, shards);
    CompletedMeans(agg, expected, shards);
    PartitionMeans(h, agg, aggSha, shards);
    DistinctByIndex(agg, expected, shards);
    MatchesByIndex(agg, shards, expected);
    KindsByIndex(shards);
    if Distinct(Sha, shards) {
      ByIndex(h, agg, aggSha, shards, expected);
    }
  }

  lemma CompletedMeans(agg: Aggregate, expected: map<string, Expected>, shards: seq<Attested>)
    ensures Completed(agg, expected, shards) <==>
      && Consumed(agg, expected, shards, |shards|)
      && Hashes(shards, |shards|) == expected.Keys
      && Kinds(shards, |shards|) == KINDS
      && Sort(Self, Union(shards)) == agg.expectedInventory
  {
    hide ShardOk;
    hide AggregateOk;
    hide AllExpected;
    hide AllSupplied;
    hide AllDisjoint;
    hide BothKinds;
    hide Covers;
    hide Union;
    hide Sort;
    hide Distinct;
    hide Consumed;
    hide Hashes;
    hide Kinds;
  }

  lemma PartitionMeans(h: Digests, agg: Aggregate, aggSha: string, shards: seq<Attested>)
    requires AggregateOk(h, agg, aggSha)
    requires forall a :: a in shards ==> ShardOk(h, a)
    ensures ExactPartition(h, agg, aggSha, shards) <==>
      && Distinct(Sha, shards) && AllExpected(agg, shards) && AllSupplied(agg, shards)
      && AllDisjoint(shards) && BothKinds(shards) && Covers(shards, agg.expectedInventory)
  {
    hide ShardOk;
    hide AggregateOk;
    hide AllExpected;
    hide AllSupplied;
    hide AllDisjoint;
    hide BothKinds;
    hide Covers;
    hide Union;
    hide Sort;
    hide Distinct;
    hide Consumed;
    hide Hashes;
    hide Kinds;
  }

  lemma DistinctByIndex(agg: Aggregate, expected: map<string, Expected>, shards: seq<Attested>)
    ensures Consumed(agg, expected, shards, |shards|)
            <==> Distinct(Sha, shards) && MatchedUpTo(agg, expected, shards, |shards|) && DisjointUpTo(shards, |shards|)
  {
    assert forall j :: 0 <= j < |shards| ==> Sha(shards[j]) == shards[j].contentSha;
  }

  /** `generate_no_debt_receipt`: it accepts exactly an exact partition, and then returns that
      partition's receipt with its own hash. */
  method Generate(h: Digests, agg: Aggregate, aggSha: string, shards: seq<Attested>)
    returns (r: Result<(Receipt, string), Error>)
    ensures r.Ok? <==> ExactPartition(h, agg, aggSha, shards)
    ensures r.Ok? ==> r.value == (ReceiptOf(h, agg, aggSha, shards), h.receipt(ReceiptOf(h, agg, aggSha, shards)))
  {
    hide ShardOk;
    hide AggregateOk;
    hide Consumed;
    hide Indexes;
    hide ReceiptOf;
    var entries := CheckAggregate(h, agg, aggSha);
    if entries.Err? {
      return Err(entries.error);
    }
    var shardsOk := CheckShards(h, shards);
    if !shardsOk {
      return Err(ShardInvalid);
    }
    CompletedIsPartition(h, agg, aggSha, shards, entries.value);
    hide ExactPartition;
    var consumed := Consume(agg, entries.value, shards);
    if consumed.Err? {
      return Err(consumed.error);
    }
    var (supplied, seen, kinds) := consumed.value;
    if supplied != entries.value.Keys {
      return Err(ShardsMissing);
    }
    if kinds != KINDS {
      return Err(KindsMissing);
    }
    if Sort(Self, seen) != agg.expectedInventory {
      return Err(UnionDiffers);
    }
    var receipt := ReceiptOf(h, agg, aggSha, shards);
    r := Ok((receipt, h.receipt(receipt)));
  }
}
