/** What the owner journal promises: tamper evidence of any stream, and the
    invariants, compare-and-swap, retry and fault laws of every run of calls. */
module JournalProofs {
  import opened Prelude
  import opened Contracts
  import opened Journal

  // ---- Tamper evidence ---------------------------------------------------

  /** Two different entries, one stored in each stream, with one hash. */
  ghost predicate CollisionAt(k: Codec, a: seq<Row>, b: seq<Row>, i: nat, j: nat) {
    && i < |a| && j < |b|
    && a[i].Entry() != b[j].Entry()
    && k.entryHash(a[i].Entry()) == k.entryHash(b[j].Entry())
  }

  ghost predicate Collision(k: Codec, a: seq<Row>, b: seq<Row>) {
    exists i: nat, j: nat :: CollisionAt(k, a, b, i, j)
  }

  /** A stored entry that hashes to the genesis constant. */
  ghost predicate GenesisPreimage(k: Codec, a: seq<Row>) {
    exists i :: 0 <= i < |a| && k.entryHash(a[i].Entry()) == GENESIS
  }

  /** What a row that checks says about itself. */
  lemma CheckedRow(k: Codec, row: Row, run: string, rev: string, expected: nat, prior: string)
    requires CheckRow(k, row, run, rev, expected, prior).Ok?
    ensures row.cursor == Int(expected) && InView(row, run, rev)
    ensures row.priorHash == Text(prior)
    ensures row.recordHash == Text(k.entryHash(row.Entry()))
    ensures row.glek.Text? && row.identity.Text? && row.recordJson.Text?
    ensures k.fromJson(row.recordJson.s) == Some(CheckRow(k, row, run, rev, expected, prior).value)
  {
  }

  /** Unfolding replay once: a stream replays iff its prefix does and its last row checks. */
  lemma ReplayStep(k: Codec, rows: seq<Row>, run: string, rev: string)
    requires Decode(k, rows, run, rev).Ok? && rows != []
    ensures var n := |rows| - 1;
            && Decode(k, rows[..n], run, rev).Ok?
            && var d, d' := Decode(k, rows[..n], run, rev).value, Decode(k, rows, run, rev).value;
            && CheckRow(k, rows[n], run, rev, n + 1, d.head).Ok?
            && rows[n].recordHash.Text?
            && d'.head == rows[n].recordHash.s
            && d'.records == d.records + [CheckRow(k, rows[n], run, rev, n + 1, d.head).value]
  {
    hide CheckRow;
    var n := |rows| - 1;
    CheckedRow(k, rows[n], run, rev, n + 1, Decode(k, rows[..n], run, rev).value.head);
  }

  /** Row `i` carries cursor `i + 1` and the hash of the row before it. */
  predicate Chained(rows: seq<Row>, i: nat)
    requires i < |rows|
  {
    && rows[i].cursor == Int(i + 1)
    && rows[i].priorHash == if i == 0 then Text(GENESIS) else rows[i - 1].recordHash
  }

  /** What a replayable stream says about each of its rows. */
  lemma {:induction false} ReplayedRow(k: Codec, rows: seq<Row>, run: string, rev: string, i: nat)
    requires Decode(k, rows, run, rev).Ok?
    requires i < |rows|
    ensures InView(rows[i], run, rev) && Chained(rows, i)
    ensures rows[i].recordHash == Text(k.entryHash(rows[i].Entry()))
    ensures rows[i].glek.Text? && rows[i].identity.Text? && rows[i].recordJson.Text?
    ensures k.fromJson(rows[i].recordJson.s) == Some(Decode(k, rows, run, rev).value.records[i])
  {
    hide CheckRow;
    var n := |rows| - 1;
    ReplayStep(k, rows, run, rev);
    if i < n {
      ReplayedRow(k, rows[..n], run, rev, i);
    } else {
      CheckedRow(k, rows[n], run, rev, n + 1, Decode(k, rows[..n], run, rev).value.head);
      if n > 0 { ReplayStep(k, rows[..n], run, rev); }
    }
  }

  /** Evidence found in prefixes is evidence in the whole streams. */
  lemma EvidenceLifts(k: Codec, a: seq<Row>, b: seq<Row>, m: nat, n: nat)
    requires m <= |a| && n <= |b|
    ensures Collision(k, a[..m], b[..n]) ==> Collision(k, a, b)
    ensures GenesisPreimage(k, a[..m]) ==> GenesisPreimage(k, a)
    ensures GenesisPreimage(k, b[..n]) ==> GenesisPreimage(k, b)
  {
    if i: nat, j: nat :| CollisionAt(k, a[..m], b[..n], i, j) {
      assert CollisionAt(k, a, b, i, j);
    }
    if i :| 0 <= i < m && k.entryHash(a[..m][i].Entry()) == GENESIS {
      assert k.entryHash(a[i].Entry()) == GENESIS;
    }
    if i :| 0 <= i < n && k.entryHash(b[..n][i].Entry()) == GENESIS {
      assert k.entryHash(b[i].Entry()) == GENESIS;
    }
  }

  /** Two streams that replay with the same head hash are the same rows, unless the two
      streams themselves exhibit a hash collision or a preimage of the genesis hash. So every
      edit, deletion, insertion, reordering or truncation is rejected or changes the head. */
  lemma {:induction false} TamperEvidence(k: Codec, a: seq<Row>, b: seq<Row>, run: string, rev: string)
    requires Decode(k, a, run, rev).Ok? && Decode(k, b, run, rev).Ok?
    requires Decode(k, a, run, rev).value.head == Decode(k, b, run, rev).value.head
    ensures a == b || Collision(k, a, b)
            || GenesisPreimage(k, a) || GenesisPreimage(k, b)
    decreases |a| + |b|
  {
    hide CheckRow;
    if a != [] { ReplayStep(k, a, run, rev); ReplayedRow(k, a, run, rev, |a| - 1); }
    if b != [] { ReplayStep(k, b, run, rev); ReplayedRow(k, b, run, rev, |b| - 1); }
    if a != [] && b != [] {
      var m, n := |a| - 1, |b| - 1;
      if a[m].Entry() != b[n].Entry() {
        assert CollisionAt(k, a, b, m, n);
      } else {
        CheckedRow(k, a[m], run, rev, m + 1, Decode(k, a[..m], run, rev).value.head);
        CheckedRow(k, b[n], run, rev, n + 1, Decode(k, b[..n], run, rev).value.head);
        TamperEvidence(k, a[..m], b[..n], run, rev);
        assert a == a[..m] + [a[m]] && b == b[..n] + [b[n]];
        EvidenceLifts(k, a, b, m, n);
      }
    }
  }

  // ---- Every reachable journal replays -----------------------------------

  /** Every view replays; GLEKs are unique across all runs and revisions, and idempotency
      identities within each view: the table's UNIQUE constraints, without the database's help. */
  ghost predicate WellFormed(k: Codec, table: Table) {
    && (forall run, rev :: Decode(k, Filter(table, run, rev), run, rev).Ok?)
    && (forall i :: 0 <= i < |table| ==> table[i].runId.Text? && table[i].revision.Text?)
    && (forall i, j :: 0 <= i < j < |table| ==> table[i].glek != table[j].glek)
    && (forall i, j :: 0 <= i < j < |table| && SameView(table[i], table[j]) ==> table[i].identity != table[j].identity)
  }

  predicate SameView(a: Row, b: Row) {
    a.runId == b.runId && a.revision == b.revision
  }

  /** A stream that replays is already in cursor order. */
  lemma {:induction false} ReplayedIsSorted(k: Codec, rows: seq<Row>, run: string, rev: string)
    requires Decode(k, rows, run, rev).Ok?
    ensures SortByCursor(rows) == rows
  {
    hide CheckRow;
    if rows != [] {
      var n := |rows| - 1;
      ReplayStep(k, rows, run, rev);
      ReplayedIsSorted(k, rows[..n], run, rev);
      ReplayedRow(k, rows, run, rev, n);
      if n > 0 { ReplayedRow(k, rows[..n], run, rev, n - 1); }
    }
  }

  lemma {:induction false} FilterHolds(table: Table, run: string, rev: string, i: nat)
    requires i < |table| && InView(table[i], run, rev)
    ensures table[i] in Filter(table, run, rev)
  {
    var n := |table| - 1;
    if i < n { FilterHolds(table[..n], run, rev, i); }
  }

  lemma FilterSnoc(table: Table, row: Row, run: string, rev: string)
    ensures Filter(table + [row], run, rev) == Filter(table, run, rev) + if InView(row, run, rev) then [row] else []
  {
    assert (table + [row])[..|table|] == table;
  }

  lemma ReplaySnoc(k: Codec, rows: seq<Row>, row: Row, run: string, rev: string)
    requires Decode(k, rows, run, rev).Ok?
    requires CheckRow(k, row, run, rev, |rows| + 1, Decode(k, rows, run, rev).value.head).Ok?
    ensures var d := Decode(k, rows, run, rev).value;
            Decode(k, rows + [row], run, rev)
            == Ok(Decoded(d.records + [CheckRow(k, row, run, rev, |rows| + 1, d.head).value], d.cursor + 1, row.recordHash.s))
  {
    assert (rows + [row])[..|rows|] == rows;
  }

  lemma {:induction false} HeadIsDigest(k: Codec, rows: seq<Row>, run: string, rev: string)
    requires Decode(k, rows, run, rev).Ok?
    ensures IsDigest(Decode(k, rows, run, rev).value.head)
  {
    hide CheckRow;
    if rows != [] {
      ReplayStep(k, rows, run, rev);
      ReplayedRow(k, rows, run, rev, |rows| - 1);
    }
  }

  /** The inserted row passes its own replay check and decodes to the very record given. */
  lemma NewRowChecks(k: Codec, call: AppendCall, a: Admitted, cursor: nat, prior: string)
    requires k.Lawful() && Admit(k, call) == Ok(a) && IsDigest(prior)
    ensures CheckRow(k, NewRow(k, call, a, cursor, prior), call.run, call.rev, cursor, prior) == Ok(call.record)
  {
    assert k.fromJson(k.toJson(call.record)) == Some(call.record);
  }

  /** The call inserts a row, acknowledged or not. */
  predicate Appends(k: Codec, table: Table, call: AppendCall) {
    Append(k, table, call).table != table
  }

  /** Reading the append branch off the transaction, for a view that replays. */
  lemma AppendBranch(k: Codec, table: Table, call: AppendCall)
    requires Appends(k, table, call)
    requires Decode(k, View(table, call.run, call.rev), call.run, call.rev).Ok?
    ensures Admit(k, call).Ok?
    ensures var rows, a := View(table, call.run, call.rev), Admit(k, call).value;
            && var d := Decode(k, rows, call.run, call.rev).value;
            && a.expected == d.cursor
            && FindIdentity(rows, a.identity).None?
            && !GlekBound(table, a.glek)
            && Append(k, table, call).table == table + [NewRow(k, call, a, d.cursor + 1, d.head)]
  {
    hide Decode;
    hide Admit;
    hide View;
    hide FindIdentity;
    hide NewRow;
  }

  /** A call that inserts a row inserts exactly one, at the end of its view, having found its
      expected cursor to be the view's length, its identity unused there and its GLEK unused anywhere. */
  lemma AppendedRow(k: Codec, table: Table, call: AppendCall) returns (row: Row)
    requires k.Lawful() && WellFormed(k, table) && Appends(k, table, call)
    ensures Append(k, table, call).table == table + [row]
    ensures Admit(k, call).Ok?
    ensures var rows, a := Filter(table, call.run, call.rev), Admit(k, call).value;
            && a.expected == |rows|
            && row == NewRow(k, call, a, |rows| + 1, Decode(k, rows, call.run, call.rev).value.head)
            && CheckRow(k, row, call.run, call.rev, |rows| + 1, Decode(k, rows, call.run, call.rev).value.head) == Ok(call.record)
            && FindIdentity(rows, a.identity).None?
            && !GlekBound(table, a.glek)
    ensures InView(row, call.run, call.rev) && row.glek == Text(Admit(k, call).value.glek)
    ensures row.identity == Text(Admit(k, call).value.identity)
  {
    hide CheckRow;
    hide Admit;
    hide Append;
    var rows := Filter(table, call.run, call.rev);
    ReplayedIsSorted(k, rows, call.run, call.rev);
    AppendBranch(k, table, call);
    HeadIsDigest(k, rows, call.run, call.rev);
    var a := Admit(k, call).value;
    var head := Decode(k, rows, call.run, call.rev).value.head;
    row := NewRow(k, call, a, |rows| + 1, head);
    NewRowChecks(k, call, a, |rows| + 1, head);
  }

  /** One call, whatever its arguments and faults, keeps the journal well formed. */
  lemma AppendKeepsWellFormed(k: Codec, table: Table, call: AppendCall)
    requires k.Lawful() && WellFormed(k, table)
    ensures WellFormed(k, Append(k, table, call).table)
  {
    hide CheckRow;
    hide Append;
    if Appends(k, table, call) {
      var row := AppendedRow(k, table, call);
      var table' := table + [row];
      forall run, rev ensures Decode(k, Filter(table', run, rev), run, rev).Ok? {
        FilterSnoc(table, row, run, rev);
        if InView(row, run, rev) {
          ReplaySnoc(k, Filter(table, run, rev), row, run, rev);
        } else {
          assert Filter(table', run, rev) == Filter(table, run, rev);
        }
      }
      forall i | 0 <= i < |table| && SameView(table[i], row) ensures table[i].identity != row.identity {
        FilterHolds(table, call.run, call.rev, i);
      }
    }
  }

  /** The table after a sequence of calls from the empty journal. Transactions are atomic, so every
      interleaving of concurrent callers, with any faults and retries, is such a sequence. */
  function Run(k: Codec, calls: seq<AppendCall>): Table {
    if calls == [] then []
    else
      var n := |calls| - 1;
      Append(k, Run(k, calls[..n]), calls[n]).table
  }

  /** What call `i` of a run returned. */
  function ResultAt(k: Codec, calls: seq<AppendCall>, i: nat): Result<AppendResult, AppendError>
    requires i < |calls|
  {
    Append(k, Run(k, calls[..i]), calls[i]).result
  }

  /** Call `i` of a run inserted a row. */
  predicate AppendsAt(k: Codec, calls: seq<AppendCall>, i: nat)
    requires i < |calls|
  {
    Appends(k, Run(k, calls[..i]), calls[i])
  }

  lemma RunStep(k: Codec, calls: seq<AppendCall>, i: nat)
    requires i < |calls|
    ensures Run(k, calls[..i + 1]) == Append(k, Run(k, calls[..i]), calls[i]).table
  {
    assert calls[..i + 1][..i] == calls[..i];
  }

  lemma {:induction false} RunWellFormed(k: Codec, calls: seq<AppendCall>)
    requires k.Lawful()
    ensures WellFormed(k, Run(k, calls))
  {
    hide Append;
    hide Decode;
    if calls == [] {
      assert forall run, rev :: Decode(k, Filter([], run, rev), run, rev).Ok? by { EmptyReplays(k); }
    } else {
      var n := |calls| - 1;
      RunWellFormed(k, calls[..n]);
      AppendKeepsWellFormed(k, Run(k, calls[..n]), calls[n]);
    }
  }

  lemma EmptyReplays(k: Codec)
    ensures forall run, rev :: Decode(k, Filter([], run, rev), run, rev).Ok?
  {
  }

  /** Every journal reachable from empty replays: cursors are 1..n, every row is chained to its
      predecessor's hash, and no GLEK is bound twice in the whole table. */
  lemma ReachableReplays(k: Codec, calls: seq<AppendCall>, run: string, rev: string)
    requires k.Lawful()
    ensures var rows := View(Run(k, calls), run, rev);
            && Decode(k, rows, run, rev).Ok?
            && Decode(k, rows, run, rev).value.cursor == |rows|
            && (forall i :: 0 <= i < |rows| ==> InView(rows[i], run, rev) && Chained(rows, i))
    ensures var table := Run(k, calls);
            forall i, j :: 0 <= i < j < |table| ==> table[i].glek != table[j].glek
  {
    hide CheckRow;
    hide Append;
    RunWellFormed(k, calls);
    ViewIsFilter(k, Run(k, calls), run, rev);
    var rows := View(Run(k, calls), run, rev);
    forall i | 0 <= i < |rows| ensures InView(rows[i], run, rev) && Chained(rows, i) {
      ReplayedRow(k, rows, run, rev, i);
    }
  }

  lemma ViewIsFilter(k: Codec, table: Table, run: string, rev: string)
    requires WellFormed(k, table)
    ensures View(table, run, rev) == Filter(table, run, rev)
    ensures Decode(k, View(table, run, rev), run, rev).Ok?
  {
    hide CheckRow;
    ReplayedIsSorted(k, Filter(table, run, rev), run, rev);
  }

  /** What one call does to the views: nothing, or one row more in its own view only. */
  lemma AppendOnView(k: Codec, table: Table, call: AppendCall, run: string, rev: string)
    requires k.Lawful() && WellFormed(k, table)
    ensures var before, after := View(table, run, rev), View(Append(k, table, call).table, run, rev);
            if Appends(k, table, call) && call.run == run && call.rev == rev
            then |after| == |before| + 1 && before == after[..|before|]
            else after == before
  {
    hide CheckRow;
    hide Append;
    hide Decode;
    ViewIsFilter(k, table, run, rev);
    if Appends(k, table, call) {
      var row := AppendedRow(k, table, call);
      AppendKeepsWellFormed(k, table, call);
      ViewIsFilter(k, table + [row], run, rev);
      FilterSnoc(table, row, run, rev);
    }
  }

  lemma {:induction false} RecordsPrefix(k: Codec, rows: seq<Row>, n: nat, run: string, rev: string)
    requires Decode(k, rows, run, rev).Ok? && n <= |rows|
    ensures Decode(k, rows[..n], run, rev).Ok?
    ensures Decode(k, rows[..n], run, rev).value.records == Decode(k, rows, run, rev).value.records[..n]
  {
    hide CheckRow;
    if n < |rows| {
      ReplayStep(k, rows, run, rev);
      RecordsPrefix(k, rows[..|rows| - 1], n, run, rev);
      assert rows[..|rows| - 1][..n] == rows[..n];
    } else {
      assert rows[..n] == rows;
    }
  }

  /** Append-only over a whole run: each earlier view, rows and decoded records alike, is a
      prefix of each later one. */
  lemma {:induction false} ViewsGrow(k: Codec, calls: seq<AppendCall>, i: nat, run: string, rev: string)
    requires k.Lawful() && i <= |calls|
    ensures View(Run(k, calls[..i]), run, rev) <= View(Run(k, calls), run, rev)
    ensures Decode(k, View(Run(k, calls[..i]), run, rev), run, rev).Ok?
    ensures Decode(k, View(Run(k, calls), run, rev), run, rev).Ok?
    ensures Decode(k, View(Run(k, calls[..i]), run, rev), run, rev).value.records
            <= Decode(k, View(Run(k, calls), run, rev), run, rev).value.records
  {
    hide CheckRow;
    hide Append;
    hide Decode;
    hide View;
    hide WellFormed;
    hide FindIdentity;
    RunWellFormed(k, calls);
    ViewIsFilter(k, Run(k, calls), run, rev);
    if i == |calls| {
      assert calls[..i] == calls;
    } else {
      var n := |calls| - 1;
      ViewsGrow(k, calls[..n], i, run, rev);
      assert calls[..n][..i] == calls[..i];
      RunWellFormed(k, calls[..n]);
      AppendOnView(k, Run(k, calls[..n]), calls[n], run, rev);
    }
    var rows := View(Run(k, calls), run, rev);
    var earlier := View(Run(k, calls[..i]), run, rev);
    assert earlier == rows[..|earlier|];
    RecordsPrefix(k, rows, |earlier|, run, rev);
  }

  // ---- Compare-and-swap and retries over whole runs -----------------------

  /** The view around an append: its length was the expected cursor, and the row went at its end. */
  lemma AppendedAt(k: Codec, calls: seq<AppendCall>, i: nat) returns (row: Row)
    requires k.Lawful() && i < |calls| && AppendsAt(k, calls, i)
    ensures Admit(k, calls[i]).Ok?
    ensures var call, a := calls[i], Admit(k, calls[i]).value;
            && var before := View(Run(k, calls[..i]), call.run, call.rev);
            && |before| == a.expected
            && View(Run(k, calls[..i + 1]), call.run, call.rev) == before + [row]
            && FindIdentity(before, a.identity).None?
            && row.identity == Text(a.identity) && row.glek == Text(a.glek)
            && row.recordJson == Text(a.json) && row.recordDigest == Text(a.digest)
  {
    hide CheckRow;
    hide Append;
    hide Decode;
    hide Admit;
    var call := calls[i];
    var table := Run(k, calls[..i]);
    RunWellFormed(k, calls[..i]);
    row := AppendedRow(k, table, call);
    RunStep(k, calls, i);
    AppendKeepsWellFormed(k, table, call);
    ViewIsFilter(k, table, call.run, call.rev);
    ViewIsFilter(k, table + [row], call.run, call.rev);
    FilterSnoc(table, row, call.run, call.rev);
  }

  /** A row appended by call `i` of a run is still there after the whole run, at the cursor
      after the one the call expected, holding the call's record, GLEK and identity. */
  lemma AppendedRowSurvives(k: Codec, calls: seq<AppendCall>, i: nat)
    requires k.Lawful() && i < |calls| && AppendsAt(k, calls, i)
    ensures Admit(k, calls[i]).Ok?
    ensures var call, a := calls[i], Admit(k, calls[i]).value;
            && var rows := View(Run(k, calls), call.run, call.rev);
            && a.expected < |rows|
            && FindIdentity(rows, a.identity) == Some(a.expected)
            && rows[a.expected].recordJson == Text(a.json)
            && rows[a.expected].recordDigest == Text(a.digest)
            && rows[a.expected].glek == Text(a.glek)
            && Decode(k, rows, call.run, call.rev).Ok?
            && Decode(k, rows, call.run, call.rev).value.records[a.expected] == call.record
  {
    hide *;
    var call := calls[i];
    var row := AppendedAt(k, calls, i);
    var a := Admit(k, call).value;
    var rows := View(Run(k, calls), call.run, call.rev);
    ViewsGrow(k, calls, i + 1, call.run, call.rev);
    assert rows[a.expected] == row;
    assert forall j :: 0 <= j < a.expected ==> rows[j] == View(Run(k, calls[..i]), call.run, call.rev)[j];
    ReplayedRow(k, rows, call.run, call.rev, a.expected);
    AdmittedJson(k, call);
    LawfulAt(k, call.record);
  }

  lemma LawfulAt(k: Codec, c: Contract)
    requires k.Lawful()
    ensures k.fromJson(k.toJson(c)) == Some(c)
  {
  }

  lemma AdmittedJson(k: Codec, call: AppendCall)
    requires Admit(k, call).Ok?
    ensures Admit(k, call).value.json == k.toJson(call.record)
  {
  }

  /** Linearizable compare-and-swap: two appends to one view in one run expected different
      cursors, the later the larger; so each cursor value wins at most once. */
  lemma CompareAndSwap(k: Codec, calls: seq<AppendCall>, i: nat, j: nat)
    requires k.Lawful() && i < j < |calls|
    requires AppendsAt(k, calls, i) && AppendsAt(k, calls, j)
    requires calls[i].run == calls[j].run && calls[i].rev == calls[j].rev
    ensures calls[i].cursor.IntCursor? && calls[j].cursor.IntCursor?
    ensures calls[i].cursor.i < calls[j].cursor.i
  {
    hide CheckRow;
    hide Append;
    hide Decode;
    var _ := AppendedAt(k, calls, i);
    var _ := AppendedAt(k, calls, j);
    assert calls[..j][..i + 1] == calls[..i + 1];
    ViewsGrow(k, calls[..j], i + 1, calls[i].run, calls[i].rev);
  }

  /** What the caller is told: a success is either the acknowledgement of a row just appended,
      at the expected cursor plus one, or a duplicate report that changed nothing. */
  lemma SuccessMeaning(k: Codec, calls: seq<AppendCall>, i: nat)
    requires k.Lawful() && i < |calls| && ResultAt(k, calls, i).Ok?
    ensures AppendsAt(k, calls, i) <==> !ResultAt(k, calls, i).value.duplicate
    ensures !ResultAt(k, calls, i).value.duplicate ==>
              && calls[i].cursor.IntCursor?
              && ResultAt(k, calls, i).value.cursor == calls[i].cursor.i + 1
              && ResultAt(k, calls, i).value.record == calls[i].record
  {
    hide CheckRow;
    RunWellFormed(k, calls[..i]);
    ViewIsFilter(k, Run(k, calls[..i]), calls[i].run, calls[i].rev);
  }

  /** Exactly when a call inserts a row, acknowledged or not: its arguments are admitted, no fault comes
      before the commit, it expects the present cursor, and its identity and GLEK are unused. */
  lemma AppendsExactlyWhen(k: Codec, table: Table, call: AppendCall)
    requires k.Lawful() && WellFormed(k, table)
    ensures Appends(k, table, call) <==>
      && Admit(k, call).Ok?
      && (call.fault.NoFault? || call.fault.stage == AfterCommit)
      && var rows, a := Filter(table, call.run, call.rev), Admit(k, call).value;
      a.expected == |rows| && FindIdentity(rows, a.identity).None? && !GlekBound(table, a.glek)
  {
    hide CheckRow;
    hide Admit;
    hide FindIdentity;
    hide NewRow;
    hide Filter;
    hide SortByCursor;
    ViewIsFilter(k, table, call.run, call.rev);
    if Appends(k, table, call) {
      AppendBranch(k, table, call);
    }
  }

  /** An admitted call that expects cursor 0 appends to the empty journal. */
  lemma FirstAppends(k: Codec, a: AppendCall)
    requires k.Lawful() && Admit(k, a).Ok? && Admit(k, a).value.expected == 0 && a.fault.NoFault?
    ensures WellFormed(k, []) && Appends(k, [], a)
  {
    hide Append;
    hide Admit;
    RunWellFormed(k, []);
    AppendsExactlyWhen(k, [], a);
  }

  lemma OnlyRow(row: Row, run: string, rev: string)
    requires InView(row, run, rev)
    ensures Filter([row], run, rev) == [row]
  {
    FilterSnoc([], row, run, rev);
    assert [] + [row] == [row];
  }

  /** And one that then expects cursor 1, under another identity and GLEK, appends after it. */
  lemma SecondAppends(k: Codec, a: AppendCall, b: AppendCall)
    requires k.Lawful() && WellFormed(k, []) && Appends(k, [], a) && a.run == b.run && a.rev == b.rev
    requires Admit(k, a).Ok? && Admit(k, b).Ok? && Admit(k, b).value.expected == 1 && b.fault.NoFault?
    requires Admit(k, a).value.identity != Admit(k, b).value.identity && Admit(k, a).value.glek != Admit(k, b).value.glek
    ensures Appends(k, Append(k, [], a).table, b)
  {
    hide CheckRow;
    hide Append;
    hide Admit;
    hide Decode;
    hide NewRow;
    hide FindIdentity;
    hide WellFormed;
    hide Appends;
    hide View;
    var row := AppendedRow(k, [], a);
    AppendKeepsWellFormed(k, [], a);
    OnlyRow(row, b.run, b.rev);
    hide Filter;
    hide InView;
    AppendsExactlyWhen(k, [row], b);
  }

  /** Both can be met: whatever the codec, here are two calls on one view that both append. */
  lemma TwoAppends(k: Codec) returns (calls: seq<AppendCall>)
    requires k.Lawful()
    ensures |calls| == 2 && calls[0].run == calls[1].run && calls[0].rev == calls[1].rev
    ensures AppendsAt(k, calls, 0) && AppendsAt(k, calls, 1)
  {
    var a := AppendCall("r", "v", IntCursor(0), IdempotencyKey("i", ""), Some("i"), Some("g"), 1, NoFault);
    var b := AppendCall("r", "v", IntCursor(1), IdempotencyKey("j", ""), Some("j"), Some("h"), 1, NoFault);
    calls := [a, b];
    hide Admit;
    hide Append;
    hide Appends;
    hide WellFormed;
    hide Decode;
    hide CheckRow;
    hide View;
    hide Filter;
    hide FindIdentity;
    hide NewRow;
    OneLetterAdmits(k, a, "i", "g", 0);
    OneLetterAdmits(k, b, "j", "h", 1);
    LettersDiffer();
    FirstAppends(k, a);
    SecondAppends(k, a, b);
    RunOfOne(k, a, b);
  }

  lemma LettersDiffer()
    ensures "idempotency_key:" + "i" != "idempotency_key:" + "j" && "g" != "h"
  {
    assert ("idempotency_key:" + "i")[16] == 'i' && ("idempotency_key:" + "j")[16] == 'j';
    assert "g"[0] == 'g' && "h"[0] == 'h';
  }

  lemma RunOfOne(k: Codec, a: AppendCall, b: AppendCall)
    ensures [a, b][..0] == [] && [a, b][..1] == [a]
    ensures Run(k, []) == [] && Run(k, [a]) == Append(k, [], a).table
  {
    hide Append;
    assert [a][..0] == [];
  }

  lemma OneLetterAdmits(k: Codec, call: AppendCall, key: string, glek: string, cursor: nat)
    requires call.run == "r" && call.rev == "v" && call.cursor == IntCursor(cursor)
    requires call.record == IdempotencyKey(key, "") && call.key == Some(key) && call.glek == Some(glek)
    requires key != "" && !IsSpace(key[0]) && glek != "" && !IsSpace(glek[0])
    ensures Admit(k, call).Ok? && Admit(k, call).value.expected == cursor
            && Admit(k, call).value.identity == "idempotency_key:" + key && Admit(k, call).value.glek == glek
  {
    assert "r"[0] == 'r' && "v"[0] == 'v';
  }

  /** The same request again: every argument but the cursor, the clock and the fault. */
  predicate SameRequest(a: AppendCall, b: AppendCall) {
    a.run == b.run && a.rev == b.rev && a.record == b.record && a.key == b.key && a.glek == b.glek
  }

  lemma SameRequestAdmits(k: Codec, a: AppendCall, b: AppendCall)
    requires SameRequest(a, b) && Admit(k, a).Ok? && b.cursor.IntCursor? && 0 <= b.cursor.i
    ensures Admit(k, b) == Ok(Admit(k, a).value.(expected := b.cursor.i))
  {
  }

  /** Once a row was appended, in any later state of the run, an exact retry with any cursor,
      stale or not, returns the original record at its original cursor and changes nothing. */
  lemma ExactRetry(k: Codec, calls: seq<AppendCall>, i: nat, retry: AppendCall)
    requires k.Lawful() && i < |calls| && AppendsAt(k, calls, i)
    requires SameRequest(calls[i], retry)
    requires retry.cursor.IntCursor? && 0 <= retry.cursor.i && retry.fault.NoFault?
    ensures Admit(k, calls[i]).Ok?
    ensures var a := Admit(k, calls[i]).value;
            Append(k, Run(k, calls), retry)
            == Outcome(Run(k, calls),
                       Ok(AppendResult(retry.run, retry.rev, calls[i].record, a.expected + 1, a.key, a.glek, true)))
  {
    hide CheckRow;
    hide Decode;
    hide Admit;
    AppendedRowSurvives(k, calls, i);
    SameRequestAdmits(k, calls[i], retry);
  }

  /** A retry of the same identity with other content or another GLEK always raises, in any
      later state and under any fault, and changes nothing; without a fault, with the matching error. */
  lemma DivergentRetry(k: Codec, calls: seq<AppendCall>, i: nat, retry: AppendCall)
    requires k.Lawful() && i < |calls| && AppendsAt(k, calls, i)
    requires retry.run == calls[i].run && retry.rev == calls[i].rev
    requires Admit(k, calls[i]).Ok? && Admit(k, retry).Ok?
    requires Admit(k, retry).value.identity == Admit(k, calls[i]).value.identity
    requires retry.record != calls[i].record || Admit(k, retry).value.glek != Admit(k, calls[i]).value.glek
    ensures Append(k, Run(k, calls), retry).table == Run(k, calls)
    ensures Append(k, Run(k, calls), retry).result.Err?
    ensures retry.fault.NoFault? ==>
              Append(k, Run(k, calls), retry).result
              == Err(if retry.record != calls[i].record then IdempotencyConflict else GlekConflict)
  {
    hide *;
    AppendedRowSurvives(k, calls, i);
    AdmittedJson(k, calls[i]);
    AdmittedJson(k, retry);
    AdmittedDigest(k, calls[i]);
    AdmittedDigest(k, retry);
    LawfulAt(k, calls[i].record);
    LawfulAt(k, retry.record);
    ConflictBranch(k, Run(k, calls), retry, Admit(k, calls[i]).value.expected);
  }

  /** Reading the conflict branches off the transaction. */
  lemma ConflictBranch(k: Codec, table: Table, call: AppendCall, i: nat)
    requires Admit(k, call).Ok?
    requires var rows, a := View(table, call.run, call.rev), Admit(k, call).value;
             && Decode(k, rows, call.run, call.rev).Ok?
             && FindIdentity(rows, a.identity) == Some(i)
             && i < |rows|
             && (rows[i].recordJson != Text(a.json) || rows[i].glek != Text(a.glek))
    ensures var o, rows, a := Append(k, table, call), View(table, call.run, call.rev), Admit(k, call).value;
            && o.table == table && o.result.Err?
            && (call.fault.NoFault? ==>
                  o.result == Err(if rows[i].recordJson != Text(a.json) || rows[i].recordDigest != Text(a.digest)
                                  then IdempotencyConflict else GlekConflict))
  {
    hide Decode;
    hide Admit;
    hide View;
    hide FindIdentity;
    hide NewRow;
  }

  lemma AdmittedDigest(k: Codec, call: AppendCall)
    requires Admit(k, call).Ok?
    ensures Admit(k, call).value.digest == k.textHash(k.toJson(call.record))
  {
  }

  // ---- Fault atomicity ----------------------------------------------------

  /** A storage error means nothing happened; an indeterminate one means exactly one row was added. */
  predicate Truthful(table: Table, o: Outcome) {
    && (o.result == Err(StorageError) ==> o.table == table)
    && (o.result == Err(CommitIndeterminate) ==> |o.table| == |table| + 1 && table == o.table[..|table|])
  }

  /** The hook raises, where it says the wrong thing, one of the journal's own storage errors: "nothing
      happened" after the commit, or "indeterminate" before it. */
  predicate Misreports(fault: Fault) {
    fault.FaultAt? &&
    if fault.stage.AfterCommit? then fault.exc == JournalException(StorageError)
    else fault.exc == JournalException(CommitIndeterminate)
  }

  /** On any table at all, errors are truthful for every fault that does not misreport. */
  lemma FaultAtomicity(k: Codec, table: Table, call: AppendCall)
    requires !Misreports(call.fault)
    ensures Truthful(table, Append(k, table, call))
  {
    hide CheckRow;
    hide Decode;
    hide Admit;
    hide View;
    hide NewRow;
    AdmitErrors(k, call);
  }

  lemma AdmitErrors(k: Codec, call: AppendCall)
    ensures Admit(k, call).Err? ==> Admit(k, call).error !in {StorageError, CommitIndeterminate}
  {
  }

  /** A first append with one-letter arguments. */
  function Letters(fault: Fault): AppendCall {
    AppendCall("r", "v", IntCursor(0), IdempotencyKey("i", ""), Some("i"), Some("g"), 1, fault)
  }

  /** Every fault that misreports does so on the empty journal, under every codec. */
  lemma MisreportingIsUntruthful(k: Codec, fault: Fault)
    requires Misreports(fault)
    ensures !Truthful([], Append(k, [], Letters(fault)))
  {
    hide CheckRow;
    var call := Letters(fault);
    assert "r"[0] == 'r' && "v"[0] == 'v' && "i"[0] == 'i' && "g"[0] == 'g';
    assert Admit(k, call).Ok?;
    assert View([], call.run, call.rev) == [];
    assert !GlekBound([], "g");
  }

  /** Exactly which faults leave the errors truthful, over all tables and calls. */
  lemma TruthfulExactlyWhen(k: Codec, fault: Fault)
    ensures (forall table, call: AppendCall :: call.fault == fault ==> Truthful(table, Append(k, table, call)))
            <==> !Misreports(fault)
  {
    hide Append;
    hide Truthful;
    if Misreports(fault) {
      MisreportingIsUntruthful(k, fault);
      assert Letters(fault).fault == fault;
    } else {
      forall table, call: AppendCall | call.fault == fault ensures Truthful(table, Append(k, table, call)) {
        FaultAtomicity(k, table, call);
      }
    }
  }

  /** After an indeterminate error the caller may simply repeat the call: it is told of a
      duplicate at the very cursor of the row that was added, in any later state. */
  lemma IndeterminateThenRetry(k: Codec, calls: seq<AppendCall>, i: nat, retry: AppendCall)
    requires k.Lawful() && i < |calls|
    requires !Misreports(calls[i].fault) && ResultAt(k, calls, i) == Err(CommitIndeterminate)
    requires SameRequest(calls[i], retry) && retry.cursor == calls[i].cursor && retry.fault.NoFault?
    ensures var o := Append(k, Run(k, calls), retry);
            && o.table == Run(k, calls)
            && o.result.Ok? && o.result.value.duplicate && o.result.value.record == calls[i].record
            && o.result.value.cursor == |View(Run(k, calls[..i + 1]), retry.run, retry.rev)|
  {
    hide CheckRow;
    hide Append;
    hide Decode;
    FaultAtomicity(k, Run(k, calls[..i]), calls[i]);
    var _ := AppendedAt(k, calls, i);
    ExactRetry(k, calls, i, retry);
  }
}
