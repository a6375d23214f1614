/** `arnold_pipelines/run_authority_store.py`: the hash-chained owner journal.
    Each `BEGIN IMMEDIATE` transaction is one atomic step on the table. */
module Journal {
  import opened Prelude
  import opened Contracts

  datatype Row = Row(
    runId: Cell, revision: Cell, cursor: Cell, identity: Cell, key: Cell, glek: Cell,
    recordType: Cell, recordJson: Cell, recordDigest: Cell, priorHash: Cell,
    recordHash: Cell, createdAt: Cell)
  {
    function Entry(): Material {
      Material(runId, revision, cursor, identity, key, glek,
               recordType, recordJson, recordDigest, priorHash, createdAt)
    }
  }

  type Table = seq<Row>

  // ---- Replay ----------------------------------------------------------

  datatype DecodeError =
    | CursorNotContiguous | RowIdentityMismatch | PriorHashMismatch | DigestMismatch
    | Undecodable | NotAuthority | NotCanonical | RecordIdentityMismatch
    | IdempotencyDrift | IntrinsicKeyDrift | BadGlek | BadTimestamp
    | HashChainInvalid | TypeDrift
    | NotSerializable  // a blob in `record_type`: json.dumps raises TypeError, not a corruption error

  datatype Decoded = Decoded(records: seq<Contract>, cursor: nat, head: string)

  predicate IsDigestCell(c: Cell) {
    c.Text? && IsDigest(c.s)
  }

  /** One iteration of the replay loop: the checks on one row, in their order. */
  function CheckRow(k: Codec, row: Row, run: string, rev: string, expected: nat, prior: string)
    : Result<Contract, DecodeError>
  {
    if row.cursor != Int(expected) then Err(CursorNotContiguous)
    else if row.runId != Text(run) || row.revision != Text(rev) then Err(RowIdentityMismatch)
    else if !IsDigestCell(row.priorHash) || row.priorHash != Text(prior) then Err(PriorHashMismatch)
    else if !row.recordJson.Text? || !IsDigestCell(row.recordDigest)
            || row.recordDigest != Text(k.textHash(row.recordJson.s)) then Err(DigestMismatch)
    else
      match k.fromJson(row.recordJson.s)
      case None => Err(Undecodable)
      case Some(record) =>
        if record.NonAuthority? then Err(NotAuthority)
        else if k.toJson(record) != row.recordJson.s then Err(NotCanonical)
        else if !record.BelongsTo(run, rev) then Err(RecordIdentityMismatch)
        else if !row.identity.Text? || !row.key.Text?
                || row.identity.s != record.Type() + ":" + row.key.s then Err(IdempotencyDrift)
        else if record.IntrinsicKey().Some? && record.IntrinsicKey().value != row.key.s then Err(IntrinsicKeyDrift)
        else if !row.glek.Text? || Blank(row.glek.s) then Err(BadGlek)
        else if !row.createdAt.Int? || row.createdAt.i < 1 then Err(BadTimestamp)
        else if row.recordType.Blob? then Err(NotSerializable)
        else if row.recordHash != Text(k.entryHash(row.Entry())) then Err(HashChainInvalid)
        else if row.recordType != Text(record.Type()) then Err(TypeDrift)
        else Ok(record)
  }

  /** `_decode_rows` as a fold: the specification of the replay loop. */
  function Decode(k: Codec, rows: seq<Row>, run: string, rev: string): (r: Result<Decoded, DecodeError>)
    ensures r.Ok? ==> r.value.cursor == |rows| == |r.value.records|
  {
    if rows == [] then Ok(Decoded([], 0, GENESIS))
    else
      var n := |rows| - 1;
      match Decode(k, rows[..n], run, rev)
      case Err(e) => Err(e)
      case Ok(d) =>
        match CheckRow(k, rows[n], run, rev, d.cursor + 1, d.head)
        case Err(e) => Err(e)
        case Ok(record) => Ok(Decoded(d.records + [record], d.cursor + 1, rows[n].recordHash.s))
  }

  lemma {:induction false} DecodePrefix(k: Codec, rows: seq<Row>, n: nat, run: string, rev: string)
    requires n <= |rows|
    ensures Decode(k, rows, run, rev).Ok? ==> Decode(k, rows[..n], run, rev).Ok?
    ensures Decode(k, rows[..n], run, rev).Err? ==>
              Decode(k, rows, run, rev) == Decode(k, rows[..n], run, rev)
  {
    if n < |rows| {
      var m := |rows| - 1;
      DecodePrefix(k, rows[..m], n, run, rev);
      assert rows[..m][..n] == rows[..n];
    } else {
      assert rows[..n] == rows;
    }
  }

  /** `_decode_rows`: the replay loop itself. */
  method DecodeRows(k: Codec, rows: seq<Row>, run: string, rev: string)
    returns (r: Result<Decoded, DecodeError>)
    ensures r == Decode(k, rows, run, rev)
  {
    var records: seq<Contract> := [];
    var expected := 1;
    var prior := GENESIS;
    for i := 0 to |rows|
      invariant expected == i + 1
      invariant Decode(k, rows[..i], run, rev) == Ok(Decoded(records, expected - 1, prior))
    {
      assert rows[..i + 1][..i] == rows[..i];
      var checked := CheckRow(k, rows[i], run, rev, expected, prior);
      if checked.Err? {
        DecodePrefix(k, rows, i + 1, run, rev);
        return Err(checked.error);
      }
      records := records + [checked.value];
      prior := rows[i].recordHash.s;
      expected := expected + 1;
    }
    assert rows[..|rows|] == rows;
    r := Ok(Decoded(records, expected - 1, prior));
  }

  // ---- The table -------------------------------------------------------

  predicate InView(row: Row, run: string, rev: string) {
    row.runId == Text(run) && row.revision == Text(rev)
  }

  /** `WHERE run_id = ? AND revision = ?`, in insertion order. */
  function Filter(table: Table, run: string, rev: string): seq<Row> {
    if table == [] then []
    else
      var n := |table| - 1;
      Filter(table[..n], run, rev) + if InView(table[n], run, rev) then [table[n]] else []
  }

  /** SQLite's ordering of a column: integers by value, before text and blobs. The order
      among non-integers is immaterial: replay stops at the first of them. */
  predicate CursorBefore(a: Cell, b: Cell) {
    a.Int? && (b.Int? ==> a.i < b.i)
  }

  function InsertByCursor(rows: seq<Row>, row: Row): seq<Row> {
    if rows != [] && CursorBefore(row.cursor, rows[|rows| - 1].cursor)
    then InsertByCursor(rows[..|rows| - 1], row) + [rows[|rows| - 1]]
    else rows + [row]
  }

  /** `ORDER BY cursor ASC` */
  function SortByCursor(rows: seq<Row>): seq<Row> {
    if rows == [] then []
    else InsertByCursor(SortByCursor(rows[..|rows| - 1]), rows[|rows| - 1])
  }

  /** `_rows_for_view` */
  function View(table: Table, run: string, rev: string): seq<Row> {
    SortByCursor(Filter(table, run, rev))
  }

  // ---- compare_and_append ----------------------------------------------

  datatype CursorArg = IntCursor(i: int) | NotAnInteger

  datatype Stage = BeforeConnect | BeforeBegin | AfterBegin | BeforeInsert | AfterInsert | BeforeCommit | AfterCommit

  /** What the fault hook raises: any exception, or one of the journal's own errors. */
  datatype HookException = GenericException | JournalException(error: AppendError)

  datatype Fault = NoFault | FaultAt(stage: Stage, exc: HookException)

  datatype AppendError =
    | RequiredText | InvalidCursor | InvalidRecord | IdempotencyConflict | GlekConflict
    | StaleCursor | Corruption(why: DecodeError) | StorageError | CommitIndeterminate

  /** What `read_view` raises: its own errors, or an exception it does not catch. */
  datatype ReadError = MissingText | Corrupted(cause: DecodeError) | Escaped

  /** `time.time_ns()` is past the epoch. */
  type Nanos = n: int | 1 <= n witness 1

  datatype AppendCall = AppendCall(
    run: string, rev: string, cursor: CursorArg, record: Contract,
    key: Option<string>, glek: Option<string>, now: Nanos, fault: Fault)

  datatype AppendResult = AppendResult(
    run: string, rev: string, record: Contract, cursor: nat, key: string, glek: string, duplicate: bool)

  /** What the call has fixed before it opens a connection. */
  datatype Admitted = Admitted(expected: nat, key: string, identity: string, glek: string, json: string, digest: string)

  datatype Outcome = Outcome(table: Table, result: Result<AppendResult, AppendError>)

  /** `derive_glek` */
  function DeriveGlek(k: Codec, run: string, rev: string, identity: string): string {
    "glek:" + k.glekHash(run, rev, identity)
  }

  /** Lines 489-507: argument checks and derived identities. */
  function Admit(k: Codec, call: AppendCall): Result<Admitted, AppendError> {
    if Blank(call.run) || Blank(call.rev) then Err(RequiredText)
    else if !call.cursor.IntCursor? || call.cursor.i < 0 then Err(InvalidCursor)
    else if call.record.NonAuthority? || !call.record.BelongsTo(call.run, call.rev)
            || !call.record.TypedCoherence() then Err(InvalidRecord)
    else
      var intrinsic := call.record.IntrinsicKey();
      var key := match call.key
                 case Some(given) => given
                 case None => if intrinsic.Some? && intrinsic.value != "" then intrinsic.value
                              else call.record.Identity();
      if Blank(key) then Err(RequiredText)
      else if intrinsic.Some? && intrinsic.value != key then Err(IdempotencyConflict)
      else
        var identity := call.record.Type() + ":" + key;
        var glek := match call.glek case Some(g) => g case None => DeriveGlek(k, call.run, call.rev, identity);
        if Blank(glek) then Err(RequiredText)
        else
          var json := k.toJson(call.record);
          Ok(Admitted(call.cursor.i, key, identity, glek, json, k.textHash(json)))
  }

  /** The row that a fresh append inserts. */
  function NewRow(k: Codec, call: AppendCall, a: Admitted, cursor: nat, prior: string): Row {
    var unhashed := Row(Text(call.run), Text(call.rev), Int(cursor), Text(a.identity), Text(a.key), Text(a.glek),
                        Text(call.record.Type()), Text(a.json), Text(a.digest), Text(prior), Blob, Int(call.now));
    unhashed.(recordHash := Text(k.entryHash(unhashed.Entry())))
  }

  /** First row of a stream that carries an idempotency identity. */
  function FindIdentity(rows: seq<Row>, identity: string): (r: Option<nat>)
    ensures r.Some? ==>
              && r.value < |rows| && rows[r.value].identity == Text(identity)
              && (forall i :: 0 <= i < r.value ==> rows[i].identity != Text(identity))
    ensures r.None? ==> forall i :: 0 <= i < |rows| ==> rows[i].identity != Text(identity)
  {
    if rows == [] then None
    else
      var n := |rows| - 1;
      match FindIdentity(rows[..n], identity)
      case Some(i) => Some(i)
      case None => if rows[n].identity == Text(identity) then Some(n) else None
  }

  predicate GlekBound(table: Table, glek: string) {
    exists i :: 0 <= i < |table| && table[i].glek == Text(glek)
  }

  predicate Raises(fault: Fault, stages: set<Stage>) {
    fault.FaultAt? && fault.stage in stages
  }

  /** The `except Exception` handler. */
  function Handled(exc: HookException, committed: bool): AppendError {
    match exc
    case JournalException(e) => e
    case GenericException => if committed then CommitIndeterminate else StorageError
  }

  /** One whole `compare_and_append` call as a function of the table: its specification. */
  function Append(k: Codec, table: Table, call: AppendCall): Outcome {
    match Admit(k, call)
    case Err(e) => Outcome(table, Err(e))
    case Ok(a) =>
      if Raises(call.fault, {BeforeConnect, BeforeBegin, AfterBegin})
      then Outcome(table, Err(Handled(call.fault.exc, false)))
      else
        var rows := View(table, call.run, call.rev);
        match Decode(k, rows, call.run, call.rev)
        case Err(e) => Outcome(table, Err(if e.NotSerializable? then StorageError else Corruption(e)))
        case Ok(d) =>
          match FindIdentity(rows, a.identity)
          case Some(i) =>
            if rows[i].recordDigest != Text(a.digest) || rows[i].recordJson != Text(a.json)
            then Outcome(table, Err(IdempotencyConflict))
            else if rows[i].glek != Text(a.glek) then Outcome(table, Err(GlekConflict))
            else
              Outcome(table, Ok(AppendResult(call.run, call.rev, d.records[i], i + 1, a.key, a.glek, true)))
          case None =>
            if d.cursor != a.expected then Outcome(table, Err(StaleCursor))
            else if GlekBound(table, a.glek) then Outcome(table, Err(GlekConflict))
            else if Raises(call.fault, {BeforeInsert, AfterInsert, BeforeCommit})
            then Outcome(table, Err(Handled(call.fault.exc, false)))
            else
              var table' := table + [NewRow(k, call, a, d.cursor + 1, d.head)];
              if Raises(call.fault, {AfterCommit})
              then Outcome(table', Err(Handled(call.fault.exc, true)))
              else Outcome(table', Ok(AppendResult(call.run, call.rev, call.record, d.cursor + 1, a.key, a.glek, false)))
  }

  /** The journal object: one SQLite table, changed only by a committed transaction. */
  class RunAuthorityJournal {
    const k: Codec
    var table: Table

    constructor (k: Codec)
      ensures this.k == k && table == []
    {
      this.k := k;
      table := [];
    }

    /** `read_view`. Only corruption is caught: what a stream that cannot be serialised raises escapes. */
    method ReadView(run: string, rev: string) returns (r: Result<(seq<Contract>, nat), ReadError>)
      ensures Blank(run) || Blank(rev) ==> r == Err(MissingText)
      ensures !Blank(run) && !Blank(rev) ==>
                match Decode(k, View(table, run, rev), run, rev)
                case Ok(d) => r == Ok((d.records, d.cursor))
                case Err(e) => r == Err(if e.NotSerializable? then Escaped else Corrupted(e))
    {
      if Blank(run) || Blank(rev) {
        return Err(MissingText);
      }
      var decoded := DecodeRows(k, View(table, run, rev), run, rev);
      match decoded
      case Err(e) => r := Err(if e.NotSerializable? then Escaped else Corrupted(e));
      case Ok(d) => r := Ok((d.records, d.cursor));
    }

    /** `compare_and_append`. `working` is the transaction's view of the table; only the
        two COMMIT points publish it, and every other exit leaves the table alone. */
    method CompareAndAppend(call: AppendCall) returns (r: Result<AppendResult, AppendError>)
      modifies this
      ensures Outcome(table, r) == Append(k, old(table), call)
    {
      hide Decode;
      hide Admit;
      hide View;
      hide NewRow;
      hide FindIdentity;
      var admitted := Admit(k, call);
      if admitted.Err? {
        return Err(admitted.error);
      }
      var a := admitted.value;
      var committed := false;
      if Raises(call.fault, {BeforeConnect}) || Raises(call.fault, {BeforeBegin}) || Raises(call.fault, {AfterBegin}) {
        return Err(Handled(call.fault.exc, committed));
      }
      var working := table;
      var rows := View(working, call.run, call.rev);
      var decoded := DecodeRows(k, rows, call.run, call.rev);
      if decoded.Err? {
        return Err(if decoded.error.NotSerializable? then StorageError else Corruption(decoded.error));
      }
      var d := decoded.value;
      var existing := FindIdentity(rows, a.identity);
      if existing.Some? {
        var row := rows[existing.value];
        if row.recordDigest != Text(a.digest) || row.recordJson != Text(a.json) {
          return Err(IdempotencyConflict);
        }
        if row.glek != Text(a.glek) {
          return Err(GlekConflict);
        }
        table := working;
        return Ok(AppendResult(call.run, call.rev, d.records[existing.value], existing.value + 1, a.key, a.glek, true));
      }
      if d.cursor != a.expected {
        return Err(StaleCursor);
      }
      if GlekBound(working, a.glek) {
        return Err(GlekConflict);
      }
      var row := NewRow(k, call, a, d.cursor + 1, d.head);
      if Raises(call.fault, {BeforeInsert}) {
        return Err(Handled(call.fault.exc, committed));
      }
      working := working + [row];
      if Raises(call.fault, {AfterInsert}) || Raises(call.fault, {BeforeCommit}) {
        return Err(Handled(call.fault.exc, committed));
      }
      table := working;
      committed := true;
      if Raises(call.fault, {AfterCommit}) {
        return Err(Handled(call.fault.exc, committed));
      }
      r := Ok(AppendResult(call.run, call.rev, call.record, d.cursor + 1, a.key, a.glek, false));
    }
  }
}
