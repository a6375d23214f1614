/** The Run Authority contracts as far as the owner journal looks at them, and
    the codec and digests the journal is parametrised by. */
module Contracts {
  import opened Prelude

  /** `body` stands for the remaining canonical fields, which the journal never reads. */
  datatype Contract =
    | Evidence(evidenceId: string, runId: string, revision: string, body: string)
    | Observation(observationId: string, runId: string, revision: string,
                  coherence: string, dispatchable: bool, hasRuntimeObservation: bool, body: string)
    | CoordinatorFence(coordinatorAttemptId: string, runId: string, revision: string, token: string)
    | CapabilityGrant(grantId: string, runId: string, revision: string, body: string)
    | SubjectAttempt(attemptId: string, runId: string, revision: string, body: string)
    | IdempotencyKey(key: string, body: string)
    | Claim(claimId: string, runId: string, revision: string, idempotencyKey: string, body: string)
    | Decision(decisionId: string, runId: string, revision: string, idempotencyKey: string, body: string)
    | Quarantine(quarantineId: string, runId: string, revision: string, body: string)
    | NonAuthority(tag: string, runId: string, revision: string, body: string)
  {
    /** `contract_type` */
    function Type(): string {
      match this
      case Evidence(_, _, _, _) => "evidence"
      case Observation(_, _, _, _, _, _, _) => "observation"
      case CoordinatorFence(_, _, _, _) => "coordinator_fence"
      case CapabilityGrant(_, _, _, _) => "capability_grant"
      case SubjectAttempt(_, _, _, _) => "subject_attempt"
      case IdempotencyKey(_, _) => "idempotency_key"
      case Claim(_, _, _, _, _) => "claim"
      case Decision(_, _, _, _, _) => "decision"
      case Quarantine(_, _, _, _) => "quarantine"
      case NonAuthority(tag, _, _, _) => tag
    }

    /** `_record_identity` */
    function Identity(): string {
      match this
      case Evidence(id, _, _, _) => id
      case Observation(id, _, _, _, _, _, _) => id
      case CoordinatorFence(id, _, _, token) => id + ":" + token
      case CapabilityGrant(id, _, _, _) => id
      case SubjectAttempt(id, _, _, _) => id
      case IdempotencyKey(key, _) => key
      case Claim(id, _, _, _, _) => id
      case Decision(id, _, _, _, _) => id
      case Quarantine(id, _, _, _) => id
      case NonAuthority(_, _, _, _) => ""
    }

    /** `getattr(record, "idempotency_key", None)` */
    function IntrinsicKey(): Option<string> {
      if Claim? || Decision? then Some(idempotencyKey) else None
    }

    /** The contract names no other run: only idempotency keys carry no run at all. */
    predicate BelongsTo(run: string, rev: string) {
      IdempotencyKey? || (runId == run && revision == rev)
    }

    /** The coherence gate that `_validate_record` puts on observations. */
    predicate TypedCoherence() {
      Observation? ==>
        && coherence in {"COHERENT", "UNKNOWN", "INCOHERENT"}
        && (dispatchable ==> hasRuntimeObservation)
    }
  }

  predicate IsHex(c: char) {
    '0' <= c <= '9' || 'a' <= c <= 'f'
  }

  /** `_is_digest` on text */
  predicate IsDigest(s: string) {
    |s| == 64 && forall i :: 0 <= i < |s| ==> IsHex(s[i])
  }

  /** `Double(s)` repeats a digit string; three doublings of eight zeros give the 64. */
  function Double(s: string): (d: string)
    ensures |d| == 2 * |s|
    ensures (forall i :: 0 <= i < |s| ==> IsHex(s[i])) ==> forall i :: 0 <= i < |d| ==> IsHex(d[i])
  {
    s + s
  }

  const GENESIS: string := Double(Double(Double("00000000")))

  /** What SHA-256 can return. */
  type HexDigest = s: string | IsDigest(s) witness GENESIS

  /** A stored SQLite value. Columns are typed by affinity only, so a tampered file
      can hold any of these in any column. */
  datatype Cell = Int(i: int) | Text(s: string) | Blob

  /** `_entry_material`: everything a record hash covers. */
  datatype Material = Material(
    runId: Cell, revision: Cell, cursor: Cell, identity: Cell, key: Cell, glek: Cell,
    recordType: Cell, recordJson: Cell, recordDigest: Cell, priorHash: Cell, createdAt: Cell)

  /** `to_json`, `contract_from_dict` after `json.loads`, and SHA-256 of a text, of the
      canonical JSON of an entry, and of the canonical JSON that `derive_glek` builds. */
  datatype Codec = Codec(
    toJson: Contract -> string,
    fromJson: string -> Option<Contract>,
    textHash: string -> HexDigest,
    entryHash: Material -> HexDigest,
    glekHash: (string, string, string) -> HexDigest)
  {
    /** The one law the journal needs: decoding canonical bytes gives the contract back.
        Nothing is assumed of the digests beyond their shape. */
    ghost predicate Lawful() {
      forall c :: fromJson(toJson(c)) == Some(c)
    }
  }
}
