/** What the owner journal derives from a call, writes to the table, and accepts from it, in terms of the
    arguments. */
module JournalRows {
  import opened Prelude
  import opened Contracts
  import opened Journal
  import opened JournalProofs

  // ---- Admission ------------------------------------------------------------

  /** The contract's own id. */
  function OwnId(c: Contract): string {
    match c
    case Evidence(id, _, _, _) => id
    case Observation(id, _, _, _, _, _, _) => id
    case CoordinatorFence(id, _, _, token) => id + ":" + token
    case CapabilityGrant(id, _, _, _) => id
    case SubjectAttempt(id, _, _, _) => id
    case IdempotencyKey(key, _) => key
    case Claim(id, _, _, _, _) => id
    case Decision(id, _, _, _, _) => id
    case Quarantine(id, _, _, _) => id
    case NonAuthority(_, _, _, _) => ""
  }

  /** The key a call goes under: the given one, else a non-empty intrinsic one, else the contract's id. */
  function KeyOf(call: AppendCall): string {
    if call.key.Some? then call.key.value
    else if (call.record.Claim? || call.record.Decision?) && call.record.idempotencyKey != "" then call.record.idempotencyKey
    else OwnId(call.record)
  }

  function IdentityOf(call: AppendCall): string {
    call.record.Type() + ":" + KeyOf(call)
  }

  /** Two kinds of authority contract never share a type, and so no identity that differs in kind. */
  lemma TypesTellKindsApart(a: Contract, b: Contract)
    requires !a.NonAuthority? && !b.NonAuthority? && a.Type() == b.Type()
    ensures a.Evidence? == b.Evidence? && a.Observation? == b.Observation? && a.CoordinatorFence? == b.CoordinatorFence?
    ensures a.CapabilityGrant? == b.CapabilityGrant? && a.SubjectAttempt? == b.SubjectAttempt?
    ensures a.IdempotencyKey? == b.IdempotencyKey? && a.Claim? == b.Claim? && a.Decision? == b.Decision?
    ensures a.Quarantine? == b.Quarantine?
  {
    var s, t := a.Type(), b.Type();
    assert |s| == |t| && s[0] == t[0] && s[1] == t[1];
  }

  /** Exactly which calls get as far as the database. */
  lemma AdmittedExactlyWhen(k: Codec, call: AppendCall)
    ensures var c := call.record;
            Admit(k, call).Ok? <==>
              && !Blank(call.run) && !Blank(call.rev)
              && call.cursor.IntCursor? && 0 <= call.cursor.i
              && !c.NonAuthority?
              && (!c.IdempotencyKey? ==> c.runId == call.run && c.revision == call.rev)
              && (c.Observation? ==> c.coherence in {"COHERENT", "UNKNOWN", "INCOHERENT"} && (c.dispatchable ==> c.hasRuntimeObservation))
              && !Blank(KeyOf(call))
              && (c.Claim? || c.Decision? ==> c.idempotencyKey == KeyOf(call))
              && (call.glek.Some? ==> !Blank(call.glek.value))
  {
    var derived := DeriveGlek(k, call.run, call.rev, IdentityOf(call));
    assert derived[0] == 'g';
    assert !Blank(derived);
  }

  /** What they go under. */
  lemma AdmittedMeans(k: Codec, call: AppendCall)
    requires Admit(k, call).Ok?
    ensures var a := Admit(k, call).value;
            && a.expected == call.cursor.i
            && a.key == KeyOf(call) && a.identity == IdentityOf(call)
            && a.glek == (if call.glek.Some? then call.glek.value else "glek:" + k.glekHash(call.run, call.rev, IdentityOf(call)))
            && a.json == k.toJson(call.record) && a.digest == k.textHash(k.toJson(call.record))
  {
  }

  /** Two different triples with one GLEK hash. */
  predicate GlekCollision(k: Codec, a: AppendCall, b: AppendCall) {
    && (a.run, a.rev, IdentityOf(a)) != (b.run, b.rev, IdentityOf(b))
    && k.glekHash(a.run, a.rev, IdentityOf(a)) == k.glekHash(b.run, b.rev, IdentityOf(b))
  }

  /** Derived GLEKs name the run, the revision and the identity: two calls share one exactly if they agree in
      all three, unless the hash collides. */
  lemma DerivedGleks(k: Codec, a: AppendCall, b: AppendCall)
    requires Admit(k, a).Ok? && Admit(k, b).Ok? && a.glek.None? && b.glek.None?
    ensures Admit(k, a).value.glek == Admit(k, b).value.glek
            <==> (a.run == b.run && a.rev == b.rev && IdentityOf(a) == IdentityOf(b)) || GlekCollision(k, a, b)
  {
    hide Admit;
    hide IdentityOf;
    AdmittedMeans(k, a);
    AdmittedMeans(k, b);
    var x, y := k.glekHash(a.run, a.rev, IdentityOf(a)), k.glekHash(b.run, b.rev, IdentityOf(b));
    assert ("glek:" + x)[5..] == x && ("glek:" + y)[5..] == y;
  }

  /** A contract with nothing given but itself. */
  function Plain(id: string, cursor: nat): AppendCall {
    AppendCall("r", "v", IntCursor(cursor), Evidence(id, "r", "v", ""), None, None, 1, NoFault)
  }

  lemma PlainIsAdmitted(k: Codec, id: string, cursor: nat)
    requires id != "" && !IsSpace(id[0])
    ensures Admit(k, Plain(id, cursor)).Ok? && Admit(k, Plain(id, cursor)).value.expected == cursor
    ensures IdentityOf(Plain(id, cursor)) == "evidence:" + id
  {
    hide Admit;
    assert "r"[0] == 'r' && "v"[0] == 'v';
    AdmittedExactlyWhen(k, Plain(id, cursor));
    AdmittedMeans(k, Plain(id, cursor));
  }

  /** Two contracts with different ids, appended one after the other with neither key nor GLEK given, both
      go in, unless the GLEK hash collides on them. */
  lemma PlainContractsBothAppend(k: Codec, x: string, y: string)
    requires k.Lawful() && x != "" && !IsSpace(x[0]) && y != "" && !IsSpace(y[0]) && x != y
    ensures GlekCollision(k, Plain(x, 0), Plain(y, 1))
            || (Appends(k, [], Plain(x, 0)) && Appends(k, Append(k, [], Plain(x, 0)).table, Plain(y, 1)))
  {
    hide Admit;
    hide Append;
    hide Appends;
    hide WellFormed;
    var a, b := Plain(x, 0), Plain(y, 1);
    PlainIsAdmitted(k, x, 0);
    PlainIsAdmitted(k, y, 1);
    AdmittedMeans(k, a);
    AdmittedMeans(k, b);
    assert ("evidence:" + x)[9..] == x && ("evidence:" + y)[9..] == y;
    DerivedGleks(k, a, b);
    if !GlekCollision(k, a, b) {
      FirstAppends(k, a);
      SecondAppends(k, a, b);
    }
  }

  // ---- The row ----------------------------------------------------------------

  /** The row that holds a contract at a place of a view. */
  function RowFor(k: Codec, run: string, rev: string, cursor: nat, prior: string, c: Contract, key: string, glek: string, now: int): Row {
    var json := k.toJson(c);
    var material := Material(Text(run), Text(rev), Int(cursor), Text(c.Type() + ":" + key), Text(key), Text(glek),
                             Text(c.Type()), Text(json), Text(k.textHash(json)), Text(prior), Int(now));
    Row(material.runId, material.revision, material.cursor, material.identity, material.key, material.glek,
        material.recordType, material.recordJson, material.recordDigest, material.priorHash, Text(k.entryHash(material)), material.createdAt)
  }

  /** An append writes the row of its contract, under its key and GLEK, after the last row's hash. */
  lemma AppendedRowMeans(k: Codec, table: Table, call: AppendCall)
    requires k.Lawful() && WellFormed(k, table) && Appends(k, table, call)
    ensures Admit(k, call).Ok?
    ensures var rows := Filter(table, call.run, call.rev);
            && (rows != [] ==> rows[|rows| - 1].recordHash.Text?)
            && Append(k, table, call).table
               == table + [RowFor(k, call.run, call.rev, |rows| + 1, if rows == [] then GENESIS else rows[|rows| - 1].recordHash.s,
                                  call.record, KeyOf(call), Admit(k, call).value.glek, call.now)]
  {
    hide Admit;
    hide Append;
    hide Appends;
    hide WellFormed;
    hide CheckRow;
    var rows := Filter(table, call.run, call.rev);
    var row := AppendedRow(k, table, call);
    AdmittedMeans(k, call);
    HeadMeans(k, table, call.run, call.rev);
  }

  lemma HeadMeans(k: Codec, table: Table, run: string, rev: string)
    requires WellFormed(k, table)
    ensures var rows := Filter(table, run, rev);
            && (rows != [] ==> rows[|rows| - 1].recordHash.Text?)
            && Decode(k, rows, run, rev).Ok?
            && Decode(k, rows, run, rev).value.head == if rows == [] then GENESIS else rows[|rows| - 1].recordHash.s
  {
    hide CheckRow;
    var rows := Filter(table, run, rev);
    if rows != [] { ReplayStep(k, rows, run, rev); }
  }

  /** What a contract and its place must satisfy to be replayed. */
  predicate Replayable(k: Codec, run: string, rev: string, prior: string, c: Contract, key: string, glek: string, now: int) {
    && IsDigest(prior) && !c.NonAuthority? && k.fromJson(k.toJson(c)) == Some(c)
    && (!c.IdempotencyKey? ==> c.runId == run && c.revision == rev)
    && (c.Claim? || c.Decision? ==> c.idempotencyKey == key)
    && !Blank(glek) && 1 <= now
  }

  /** Replay and append are two sides of one thing: a row passes all the checks at a place, as a contract,
      exactly if it is the row that holds that contract there, for some key, GLEK and time. */
  lemma RowAcceptedExactlyWhen(k: Codec, row: Row, run: string, rev: string, cursor: nat, prior: string, c: Contract)
    ensures CheckRow(k, row, run, rev, cursor, prior) == Ok(c)
            <==> exists key, glek, now ::
                   Replayable(k, run, rev, prior, c, key, glek, now) && row == RowFor(k, run, rev, cursor, prior, c, key, glek, now)
  {
    if CheckRow(k, row, run, rev, cursor, prior) == Ok(c) {
      AcceptedIsRow(k, row, run, rev, cursor, prior, c);
    }
    if key, glek, now :| Replayable(k, run, rev, prior, c, key, glek, now) && row == RowFor(k, run, rev, cursor, prior, c, key, glek, now) {
      RowIsAccepted(k, run, rev, cursor, prior, c, key, glek, now);
    }
  }

  lemma AcceptedIsRow(k: Codec, row: Row, run: string, rev: string, cursor: nat, prior: string, c: Contract)
    requires CheckRow(k, row, run, rev, cursor, prior) == Ok(c)
    ensures row.key.Text? && row.glek.Text? && row.createdAt.Int?
    ensures Replayable(k, run, rev, prior, c, row.key.s, row.glek.s, row.createdAt.i)
    ensures row == RowFor(k, run, rev, cursor, prior, c, row.key.s, row.glek.s, row.createdAt.i)
  {
    hide Blank;
    hide IsDigest;
  }

  lemma RowIsAccepted(k: Codec, run: string, rev: string, cursor: nat, prior: string, c: Contract, key: string, glek: string, now: int)
    requires Replayable(k, run, rev, prior, c, key, glek, now)
    ensures CheckRow(k, RowFor(k, run, rev, cursor, prior, c, key, glek, now), run, rev, cursor, prior) == Ok(c)
  {
    hide Blank;
    hide IsDigest;
    assert IsDigest(k.textHash(k.toJson(c)));
  }

  // ---- What the caller is told ----------------------------------------------------

  /** The answer to every admitted call on a well-formed table, by the first thing that decides it: the
      fault, the identity, the cursor, the GLEK, the fault again. */
  lemma AnswerMeans(k: Codec, table: Table, call: AppendCall)
    requires k.Lawful() && WellFormed(k, table) && Admit(k, call).Ok?
    ensures var rows, a, r := Filter(table, call.run, call.rev), Admit(k, call).value, Append(k, table, call).result;
            var raised := if call.fault.FaultAt? && call.fault.exc.JournalException? then call.fault.exc.error
                          else if call.fault.FaultAt? && call.fault.stage == AfterCommit then CommitIndeterminate else StorageError;
            if call.fault.FaultAt? && call.fault.stage in {BeforeConnect, BeforeBegin, AfterBegin} then r == Err(raised)
            else if exists i :: 0 <= i < |rows| && rows[i].identity == Text(a.identity) then
              exists i :: 0 <= i < |rows| && rows[i].identity == Text(a.identity) &&
                r == if rows[i].recordJson != Text(a.json) || rows[i].recordDigest != Text(a.digest) then Err(IdempotencyConflict)
                     else if rows[i].glek != Text(a.glek) then Err(GlekConflict)
                     else Ok(AppendResult(call.run, call.rev, call.record, i + 1, a.key, a.glek, true))
            else if call.cursor.i != |rows| then r == Err(StaleCursor)
            else if exists i :: 0 <= i < |table| && table[i].glek == Text(a.glek) then r == Err(GlekConflict)
            else if call.fault.FaultAt? then r == Err(raised)
            else r == Ok(AppendResult(call.run, call.rev, call.record, call.cursor.i + 1, a.key, a.glek, false))
  {
    hide CheckRow;
    hide Admit;
    hide NewRow;
    hide SortByCursor;
    hide Filter;
    hide Decode;
    ViewIsFilter(k, table, call.run, call.rev);
    AdmittedMeans(k, call);
    var rows, a := Filter(table, call.run, call.rev), Admit(k, call).value;
    match FindIdentity(rows, a.identity)
    case None =>
      if call.fault.FaultAt? {
        StagesAreAll(call.fault.stage);
      }
    case Some(i) =>
      assert rows[i].identity == Text(a.identity);
      ReplayedRow(k, rows, call.run, call.rev, i);
      LawfulAt(k, call.record);
  }

  lemma StagesAreAll(stage: Stage)
    ensures stage in {BeforeConnect, BeforeBegin, AfterBegin} || stage in {BeforeInsert, AfterInsert, BeforeCommit} || stage in {AfterCommit}
  {
    match stage
    case BeforeConnect =>
    case BeforeBegin =>
    case AfterBegin =>
    case BeforeInsert =>
    case AfterInsert =>
    case BeforeCommit =>
    case AfterCommit =>
  }

  // ---- The order of a view ------------------------------------------------------

  /** What a digest looks like. */
  lemma DigestTextExactlyWhen(s: string)
    ensures IsDigest(s) <==> |s| == 64 && forall c :: c in s ==> c in "0123456789abcdef"
  {
    if forall c :: c in s ==> c in "0123456789abcdef" {
      forall i | 0 <= i < |s| ensures IsHex(s[i]) {
        assert s[i] in s;
      }
    }
  }

  /** Integers by value, and whatever else a tampered column holds behind them. */
  predicate NotAfter(a: Cell, b: Cell) {
    b.Int? ==> a.Int? && a.i <= b.i
  }

  ghost predicate InCursorOrder(rows: seq<Row>) {
    forall i, j :: 0 <= i < j < |rows| ==> NotAfter(rows[i].cursor, rows[j].cursor)
  }

  lemma {:induction false} InsertionKeepsOrder(rows: seq<Row>, row: Row)
    requires InCursorOrder(rows)
    ensures InCursorOrder(InsertByCursor(rows, row)) && multiset(InsertByCursor(rows, row)) == multiset(rows) + multiset{row}
  {
    if rows != [] {
      var n := |rows| - 1;
      assert rows == rows[..n] + [rows[n]];
      if CursorBefore(row.cursor, rows[n].cursor) {
        InsertionKeepsOrder(rows[..n], row);
        var head := InsertByCursor(rows[..n], row);
        forall i | 0 <= i < |head| ensures NotAfter(head[i].cursor, rows[n].cursor) {
          assert head[i] in multiset(head);
          assert head[i] == row || head[i] in rows[..n];
        }
      } else {
        forall i | 0 <= i < |rows| ensures NotAfter(rows[i].cursor, row.cursor) {
          assert i < n ==> NotAfter(rows[i].cursor, rows[n].cursor);
        }
      }
    }
  }

  lemma {:induction false} SortingOrders(rows: seq<Row>)
    ensures InCursorOrder(SortByCursor(rows)) && multiset(SortByCursor(rows)) == multiset(rows)
  {
    hide InCursorOrder;
    hide InsertByCursor;
    if rows == [] {
      NothingIsOrdered();
    } else {
      var n := |rows| - 1;
      assert rows == rows[..n] + [rows[n]];
      SortingOrders(rows[..n]);
      InsertionKeepsOrder(SortByCursor(rows[..n]), rows[n]);
    }
  }

  lemma NothingIsOrdered()
    ensures InCursorOrder([])
  {
  }

  lemma {:induction false} FilterMeans(table: Table, run: string, rev: string, row: Row)
    ensures multiset(Filter(table, run, rev))[row]
         == if row.runId == Text(run) && row.revision == Text(rev) then multiset(table)[row] else 0
  {
    if table != [] {
      var n := |table| - 1;
      assert table == table[..n] + [table[n]];
      FilterMeans(table[..n], run, rev, row);
    }
  }

  /** A view holds the table's rows of its run and revision, as often as the table does, by cursor; in any table,
      also one that was tampered with. */
  lemma ViewMeans(table: Table, run: string, rev: string)
    ensures InCursorOrder(View(table, run, rev))
    ensures forall row :: multiset(View(table, run, rev))[row]
                       == if row.runId == Text(run) && row.revision == Text(rev) then multiset(table)[row] else 0
  {
    SortingOrders(Filter(table, run, rev));
    forall row: Row
      ensures multiset(Filter(table, run, rev))[row]
           == if row.runId == Text(run) && row.revision == Text(rev) then multiset(table)[row] else 0
    {
      FilterMeans(table, run, rev, row);
    }
    hide Filter;
    hide SortByCursor;
    hide InCursorOrder;
  }
}
