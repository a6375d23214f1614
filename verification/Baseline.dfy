/** `scripts/fixer_recovery_baseline.py`: capturing the predeploy baseline. Files are read inside
    cursored windows, the repair queue is routed, branch refs are recorded, and everything is put
    under one content address. */
module Baseline {
  import opened Prelude
  import Ordering
  import Porcelain

  // ---- Windows --------------------------------------------------------------------

  /** The stat cursor of a file. */
  datatype Cursor = Cursor(mtime: nat, size: nat, ino: nat)

  /** `_cursor_le`: tuples compare lexicographically. */
  predicate CursorLe(a: Cursor, b: Cursor) {
    a.mtime < b.mtime || (a.mtime == b.mtime && (a.size < b.size || (a.size == b.size && a.ino <= b.ino)))
  }

  /** What one path gives: cursors before and after the read, and the content's digest. */
  datatype Reading = Unreadable | Reading(start: Cursor, digest: string, end: Cursor)

  datatype FileRecord = FileRecord(path: string, digest: string, start: Cursor, end: Cursor)

  datatype Window = Window(source: string, start: Cursor, end: Cursor, torn: bool, ordered: bool, count: nat)

  const ZERO := Cursor(0, 0, 0)

  predicate Readable(path: string, readings: map<string, Reading>) {
    path in readings && readings[path].Reading?
  }

  function RecordOf(path: string, readings: map<string, Reading>): FileRecord
    requires Readable(path, readings)
  {
    var r := readings[path];
    FileRecord(path, r.digest, r.start, r.end)
  }

  /** The records are the readings of exactly the given paths, each once and in order. */
  ghost predicate AreRecords(paths: seq<string>, readings: map<string, Reading>, records: seq<FileRecord>) {
    && Ordering.StrictlySorted((r: FileRecord) => r.path, records)
    && (forall p :: p in paths <==> exists r :: r in records && r.path == p)
    && (forall r :: r in records ==> Readable(r.path, readings) && r == RecordOf(r.path, readings))
  }

  /** The window spans all its files, from the least start to the greatest end, and is torn exactly
      when a file changed under its read. */
  ghost predicate Spans(source: string, records: seq<FileRecord>, w: Window) {
    && w.source == source && w.count == |records|
    && (w.torn <==> exists r :: r in records && r.start != r.end)
    && (w.ordered <==> forall r :: r in records ==> CursorLe(r.start, r.end))
    && (if records == [] then w.start == w.end == ZERO
        else
          && (exists r :: r in records && r.start == w.start) && (forall r :: r in records ==> CursorLe(w.start, r.start))
          && (exists r :: r in records && r.end == w.end) && (forall r :: r in records ==> CursorLe(r.end, w.end)))
  }

  /** `_sorted_paths`, for paths already resolved. */
  method SortedPaths(paths: seq<string>) returns (sorted: seq<string>)
    ensures Ordering.StrictlySorted((p: string) => p, sorted)
    ensures forall p :: p in sorted <==> p in paths
  {
    var key := (p: string) => p;
    var unique: seq<string> := [];
    for i := 0 to |paths|
      invariant forall p :: p in unique <==> p in paths[..i]
      invariant Ordering.Distinct(key, unique)
    {
      if paths[i] !in unique {
        unique := unique + [paths[i]];
      }
    }
    sorted := Ordering.Sort(key, unique);
    Ordering.SortSorts(key, unique);
    Ordering.DistinctIsUnordered(key, unique, sorted);
    Ordering.SortedDistinct(key, sorted);
    forall p ensures p in sorted <==> p in paths {
      assert p in sorted <==> p in multiset(sorted);
      assert p in unique <==> p in multiset(unique);
    }
  }

  /** `_capture_files` */
  method CaptureFiles(source: string, paths: seq<string>, readings: map<string, Reading>)
    returns (r: Option<(seq<FileRecord>, Window)>)
    ensures r.Some? <==> forall p :: p in paths ==> Readable(p, readings)
    ensures r.Some? ==> AreRecords(paths, readings, r.value.0) && Spans(source, r.value.0, r.value.1)
  {
    var sorted := SortedPaths(paths);
    var records: seq<FileRecord> := [];
    for i := 0 to |sorted|
      invariant |records| == i
      invariant forall k :: 0 <= k < i ==> Readable(sorted[k], readings) && records[k] == RecordOf(sorted[k], readings)
    {
      if sorted[i] !in readings || readings[sorted[i]].Unreadable? {
        assert sorted[i] in paths;
        return None;
      }
      records := records + [RecordOf(sorted[i], readings)];
    }
    forall p ensures p in paths <==> exists r :: r in records && r.path == p {
      if p in paths {
        var k :| 0 <= k < |sorted| && sorted[k] == p;
        assert records[k] in records && records[k].path == p;
      }
    }
    assert AreRecords(paths, readings, records);
    var window := WindowOf(source, records);
    r := Some((records, window));
  }

  method WindowOf(source: string, records: seq<FileRecord>) returns (w: Window)
    ensures Spans(source, records, w)
  {
    if records == [] {
      return Window(source, ZERO, ZERO, false, true, 0);
    }
    var start, end := records[0].start, records[0].end;
    var torn, ordered := false, true;
    for i := 0 to |records|
      invariant torn <==> exists k :: 0 <= k < i && records[k].start != records[k].end
      invariant ordered <==> forall k :: 0 <= k < i ==> CursorLe(records[k].start, records[k].end)
      invariant exists k :: 0 <= k < |records| && records[k].start == start
      invariant exists k :: 0 <= k < |records| && records[k].end == end
      invariant forall k :: 0 <= k < i ==> CursorLe(start, records[k].start) && CursorLe(records[k].end, end)
    {
      var r := records[i];
      torn := torn || r.start != r.end;
      ordered := ordered && CursorLe(r.start, r.end);
      if !CursorLe(start, r.start) {
        start := r.start;
      }
      if !CursorLe(r.end, end) {
        end := r.end;
      }
    }
    w := Window(source, start, end, torn, ordered, |records|);
  }

  // ---- The queue router -----------------------------------------------------------

  /** A queue record: its raw schema and kind, and the stripped request id, action and decision. */
  datatype QueueRecord = QueueRecord(path: string, schema: string, kind: string, requestId: string, action: string, decision: string)

  datatype Category = Action | Receipt | Index | Unknown

  const CANONICAL_ACTIONS: set<string> := {"request", "join", "reclaim"}

  predicate EndsWith(s: string, suffix: string) {
    |suffix| <= |s| && s[|s| - |suffix|..] == suffix
  }

  /** `classify_queue_record` */
  function Classify(r: QueueRecord): (Category, string) {
    var kind := Porcelain.Strip(r.kind);
    if r.schema == "claim-alias/v1" then (Index, "index")
    else if kind == "repair_request" then (Action, "request")
    else if kind == "repair_request_decision" then (Action, "join")
    else if kind == "repair_request_attempt" then (Receipt, "attempt")
    else if EndsWith(kind, "_claim") then
      (Action, if r.action in CANONICAL_ACTIONS then r.action else "join")
    else (Unknown, if kind != "" then kind else "unknown")
  }

  datatype Entry = Entry(path: string, kind: string, action: string, requestId: string)

  datatype Reason = NonCanonicalAction | MissingRequestReference | ClaimWithoutAcceptedDecision

  datatype Violation = Violation(path: string, reason: Reason)

  datatype Router = Router(actions: seq<Entry>, receipts: seq<Entry>, index: seq<Entry>, violations: seq<Violation>, canonicalOnly: bool)

  function EntryOf(r: QueueRecord): Entry {
    Entry(r.path, r.kind, Classify(r).1, r.requestId)
  }

  function Entries(records: seq<QueueRecord>, category: Category): seq<Entry> {
    if records == [] then []
    else
      var init, r := records[..|records| - 1], records[|records| - 1];
      Entries(init, category) + if Classify(r).0 == category then [EntryOf(r)] else []
  }

  predicate IsRequest(r: QueueRecord, id: string) {
    r.kind == "repair_request" && r.requestId == id
  }

  predicate Accepts(r: QueueRecord, id: string) {
    Classify(r).0 == Action && r.kind == "repair_request_decision" && r.requestId == id && r.decision == "accepted"
  }

  /** What the router must object to, record by record against the whole queue. */
  ghost predicate Offends(records: seq<QueueRecord>, r: QueueRecord, reason: Reason) {
    match reason
    case NonCanonicalAction => Classify(r).0 == Unknown
    case MissingRequestReference =>
      Classify(r).0 in {Action, Receipt} && r.requestId != "" && !exists q :: q in records && IsRequest(q, r.requestId)
    case ClaimWithoutAcceptedDecision =>
      Classify(r).0 == Action && EndsWith(r.kind, "_claim") && !exists d :: d in records && Accepts(d, r.requestId)
  }

  ghost predicate Routes(records: seq<QueueRecord>, router: Router) {
    && router.actions == Entries(records, Action)
    && router.receipts == Entries(records, Receipt)
    && router.index == Entries(records, Index)
    && (forall v :: v in router.violations <==> exists r :: r in records && r.path == v.path && Offends(records, r, v.reason))
    && (router.canonicalOnly <==> router.violations == [])
  }

  /** The loop that collects the requests; a request without an id fails the capture. */
  method CollectRequests(records: seq<QueueRecord>) returns (requests: Option<set<string>>)
    ensures requests.Some? <==> forall r :: r in records && r.kind == "repair_request" ==> r.requestId != ""
    ensures requests.Some? ==> forall id :: id in requests.value <==> exists q :: q in records && IsRequest(q, id)
  {
    var found: set<string> := {};
    for i := 0 to |records|
      invariant forall r :: r in records[..i] && r.kind == "repair_request" ==> r.requestId != ""
      invariant forall id :: id in found <==> exists k :: 0 <= k < i && IsRequest(records[k], id)
    {
      if records[i].kind == "repair_request" {
        if records[i].requestId == "" {
          assert records[i] in records;
          return None;
        }
        found := found + {records[i].requestId};
      }
    }
    assert records[..|records|] == records;
    requests := Some(found);
  }

  /** The loop over the actions that are claims, given which requests have an accepted decision. */
  method CheckClaims(actions: seq<Entry>, accepted: set<string>) returns (violations: seq<Violation>)
    ensures forall v :: v in violations <==>
      v.reason == ClaimWithoutAcceptedDecision
      && exists a :: a in actions && a.path == v.path && EndsWith(a.kind, "_claim") && a.requestId !in accepted
  {
    violations := [];
    for i := 0 to |actions|
      invariant forall v :: v in violations <==>
        v.reason == ClaimWithoutAcceptedDecision
        && exists k :: 0 <= k < i && actions[k].path == v.path && EndsWith(actions[k].kind, "_claim") && actions[k].requestId !in accepted
    {
      if EndsWith(actions[i].kind, "_claim") && actions[i].requestId !in accepted {
        violations := violations + [Violation(actions[i].path, ClaimWithoutAcceptedDecision)];
      }
    }
  }

  /** The violations the main loop records for one record. */
  function Direct(r: QueueRecord, requests: set<string>): seq<Violation> {
    match Classify(r).0
    case Unknown => [Violation(r.path, NonCanonicalAction)]
    case Index => []
    case _ => if r.requestId != "" && r.requestId !in requests then [Violation(r.path, MissingRequestReference)] else []
  }

  /** The main loop of `capture_queue`. */
  method RouteRecords(records: seq<QueueRecord>, requests: set<string>)
    returns (actions: seq<Entry>, receipts: seq<Entry>, index: seq<Entry>, violations: seq<Violation>, accepted: set<string>)
    ensures actions == Entries(records, Action) && receipts == Entries(records, Receipt) && index == Entries(records, Index)
    ensures forall v :: v in violations <==> exists r :: r in records && v in Direct(r, requests)
    ensures forall id :: id in accepted <==> exists d :: d in records && Accepts(d, id)
  {
    hide Classify;
    actions, receipts, index, violations, accepted := [], [], [], [], {};
    for i := 0 to |records|
      invariant actions == Entries(records[..i], Action) && receipts == Entries(records[..i], Receipt) && index == Entries(records[..i], Index)
      invariant forall v :: v in violations <==> exists k :: 0 <= k < i && v in Direct(records[k], requests)
      invariant forall id :: id in accepted <==> exists k :: 0 <= k < i && Accepts(records[k], id)
    {
      var r := records[i];
      assert records[..i + 1][..i] == records[..i];
      var (category, action) := Classify(r);
      var entry := Entry(r.path, r.kind, action, r.requestId);
      match category {
        case Unknown =>
          violations := violations + [Violation(r.path, NonCanonicalAction)];
        case Action =>
          actions := actions + [entry];
          if r.requestId != "" && r.requestId !in requests {
            violations := violations + [Violation(r.path, MissingRequestReference)];
          }
          if r.kind == "repair_request_decision" && r.decision == "accepted" {
            accepted := accepted + {r.requestId};
          }
        case Receipt =>
          receipts := receipts + [entry];
          if r.requestId != "" && r.requestId !in requests {
            violations := violations + [Violation(r.path, MissingRequestReference)];
          }
        case Index =>
          index := index + [entry];
      }
    }
    assert records[..|records|] == records;
  }

  lemma {:induction false} EntriesAre(records: seq<QueueRecord>, category: Category, e: Entry)
    ensures e in Entries(records, category) <==> exists r :: r in records && Classify(r).0 == category && e == EntryOf(r)
  {
    hide Classify;
    if records != [] {
      var init, r := records[..|records| - 1], records[|records| - 1];
      EntriesAre(init, category, e);
      assert records == init + [r];
    }
  }

  /** `capture_queue`, after the files are read and parsed. */
  method RouteQueue(records: seq<QueueRecord>) returns (router: Option<Router>)
    ensures router.Some? <==> forall r :: r in records && r.kind == "repair_request" ==> r.requestId != ""
    ensures router.Some? ==> Routes(records, router.value)
  {
    var requests := CollectRequests(records);
    if requests.None? {
      return None;
    }
    var actions, receipts, index, direct, accepted := RouteRecords(records, requests.value);
    var claims := CheckClaims(actions, accepted);
    forall v: Violation ensures v in direct + claims <==> exists r :: r in records && r.path == v.path && Offends(records, r, v.reason) {
      ViolationsAre(records, requests.value, accepted, actions, direct, claims, v);
    }
    var violations := direct + claims;
    router := Some(Router(actions, receipts, index, violations, violations == []));
  }

  lemma ViolationsAre(records: seq<QueueRecord>, requests: set<string>, accepted: set<string>, actions: seq<Entry>,
                      direct: seq<Violation>, claims: seq<Violation>, v: Violation)
    requires forall id :: id in requests <==> exists q :: q in records && IsRequest(q, id)
    requires forall id :: id in accepted <==> exists d :: d in records && Accepts(d, id)
    requires actions == Entries(records, Action)
    requires v in direct <==> exists r :: r in records && v in Direct(r, requests)
    requires v in claims <==>
      v.reason == ClaimWithoutAcceptedDecision
      && exists a :: a in actions && a.path == v.path && EndsWith(a.kind, "_claim") && a.requestId !in accepted
    ensures v in direct + claims <==> exists r :: r in records && r.path == v.path && Offends(records, r, v.reason)
  {
    hide Classify;
    hide EndsWith;
    hide IsRequest;
    hide Accepts;
    if v in direct {
      var r :| r in records && v in Direct(r, requests);
      assert r.path == v.path && Offends(records, r, v.reason);
    }
    if v in claims {
      var a :| a in actions && a.path == v.path && EndsWith(a.kind, "_claim") && a.requestId !in accepted;
      EntriesAre(records, Action, a);
      var r :| r in records && Classify(r).0 == Action && a == EntryOf(r);
      assert r.path == v.path && Offends(records, r, v.reason);
    }
    if r :| r in records && r.path == v.path && Offends(records, r, v.reason) {
      if v.reason == ClaimWithoutAcceptedDecision {
        EntriesAre(records, Action, EntryOf(r));
        assert EntryOf(r) in actions;
      } else {
        assert v in Direct(r, requests);
      }
    }
  }

  /** Which records fall in which category, and under which action. */
  lemma ClassifyMeans(r: QueueRecord)
    ensures var kind, alias := Porcelain.Strip(r.kind), r.schema == "claim-alias/v1";
            var claim := |kind| >= 6 && kind[|kind| - 6..] == "_claim";
            match Classify(r)
            case (Index, action) => alias && action == "index"
            case (Action, action) =>
              && !alias && action in {"request", "join", "reclaim"}
              && (kind == "repair_request" || kind == "repair_request_decision" || claim)
              && (kind == "repair_request" ==> action == "request")
              && (kind == "repair_request_decision" ==> action == "join")
              && (claim ==> action == if r.action in {"request", "join", "reclaim"} then r.action else "join")
            case (Receipt, action) => !alias && kind == "repair_request_attempt" && action == "attempt"
            case (Unknown, _) =>
              !alias && !claim && kind != "repair_request" && kind != "repair_request_decision" && kind != "repair_request_attempt"
  {
    var kind := Porcelain.Strip(r.kind);
    assert "repair_request"[8..][5] == 't' && "repair_request_decision"[17..][5] == 'n' && "_claim"[5] == 'm';
  }

  /** What each list of the router holds: an entry for each record of its category, with that record's path,
      kind and request. */
  lemma EntriesMean(records: seq<QueueRecord>, router: Router, e: Entry)
    requires Routes(records, router)
    ensures e in router.actions + router.receipts + router.index
            <==> exists r :: r in records && !Classify(r).0.Unknown? && e == Entry(r.path, r.kind, Classify(r).1, r.requestId)
  {
    hide Classify;
    EntriesAre(records, Action, e);
    EntriesAre(records, Receipt, e);
    EntriesAre(records, Index, e);
    if r :| r in records && !Classify(r).0.Unknown? && e == Entry(r.path, r.kind, Classify(r).1, r.requestId) {
      assert e == EntryOf(r);
    }
  }

  /** Cursors are ordered totally, by time first, then size, then file. */
  lemma CursorsAreOrdered(a: Cursor, b: Cursor, c: Cursor)
    ensures CursorLe(a, b) || CursorLe(b, a)
    ensures CursorLe(a, b) && CursorLe(b, a) ==> a == b
    ensures CursorLe(a, b) && CursorLe(b, c) ==> CursorLe(a, c)
    ensures a.mtime < b.mtime ==> !CursorLe(b, a)
    ensures a.mtime == b.mtime && a.size < b.size ==> !CursorLe(b, a)
  {
  }

  /** Exactly when a queue is canonical: every record has a canonical kind, every action and receipt
      with a request id refers to a captured request, and every claim to an accepted decision. */
  lemma CanonicalMeans(records: seq<QueueRecord>, router: Router)
    requires Routes(records, router)
    ensures router.canonicalOnly <==> forall r, reason :: r in records ==> !Offends(records, r, reason)
  {
    hide Offends;
    if router.canonicalOnly {
      forall r, reason | r in records ensures !Offends(records, r, reason) {
        assert Violation(r.path, reason) !in router.violations;
      }
    } else {
      var v := router.violations[0];
      assert v in router.violations;
    }
  }

  /** What is asked of one record, in the records' own fields. A request is told by its raw kind, and so is an accepted
      decision, which must be routed as an action as well. */
  ghost predicate Fine(records: seq<QueueRecord>, r: QueueRecord) {
    var category := Classify(r).0;
    && !category.Unknown?
    && (!category.Index? && r.requestId != "" ==>
          exists q :: q in records && q.kind == "repair_request" && q.requestId == r.requestId)
    && (category.Action? && |r.kind| >= 6 && r.kind[|r.kind| - 6..] == "_claim" ==>
          exists d :: d in records && Classify(d).0.Action? && d.kind == "repair_request_decision"
                      && d.requestId == r.requestId && d.decision == "accepted")
  }

  lemma FineMeans(records: seq<QueueRecord>, r: QueueRecord)
    ensures Fine(records, r) <==>
      !Offends(records, r, NonCanonicalAction) && !Offends(records, r, MissingRequestReference) && !Offends(records, r, ClaimWithoutAcceptedDecision)
  {
    hide Classify;
    forall q: QueueRecord ensures IsRequest(q, r.requestId) <==> q.kind == "repair_request" && q.requestId == r.requestId {
    }
    forall d: QueueRecord
      ensures Accepts(d, r.requestId) <==>
        Classify(d).0.Action? && d.kind == "repair_request_decision" && d.requestId == r.requestId && d.decision == "accepted"
    {
    }
  }

  /** The same in the records' own fields. */
  lemma CanonicalExactlyWhen(records: seq<QueueRecord>, router: Router)
    requires Routes(records, router)
    ensures router.canonicalOnly <==> forall r :: r in records ==> Fine(records, r)
  {
    CanonicalMeans(records, router);
    forall r: QueueRecord ensures Fine(records, r) <==> forall reason: Reason :: !Offends(records, r, reason) {
      FineMeans(records, r);
      if Fine(records, r) {
        forall reason: Reason ensures !Offends(records, r, reason) {
          match reason
          case NonCanonicalAction =>
          case MissingRequestReference =>
          case ClaimWithoutAcceptedDecision =>
        }
      }
    }
    hide Fine;
    hide Offends;
  }

  /** The same for a claim whose raw kind ends in the suffix. */
  lemma CanonicalClaimsAreAccepted(records: seq<QueueRecord>, router: Router, r: QueueRecord)
    requires Routes(records, router) && router.canonicalOnly && r in records
    requires r.schema != "claim-alias/v1" && EndsWith(Porcelain.Strip(r.kind), "_claim")
    requires EndsWith(r.kind, "_claim")
    ensures exists d :: d in records && Accepts(d, r.requestId)
    ensures r.requestId != "" ==> exists q :: q in records && IsRequest(q, r.requestId)
  {
    CanonicalMeans(records, router);
    ClaimsAreActions(r);
    assert !Offends(records, r, ClaimWithoutAcceptedDecision) && !Offends(records, r, MissingRequestReference);
  }

  lemma ClaimsAreActions(r: QueueRecord)
    requires r.schema != "claim-alias/v1" && EndsWith(Porcelain.Strip(r.kind), "_claim")
    ensures Classify(r).0 == Action
  {
    var kind := Porcelain.Strip(r.kind);
    assert kind[|kind| - 1] == 'm';
    assert "repair_request_attempt"[21] == 't';
  }

  /** A queue in which a claim is accompanied by its request and nothing else. */
  function ClaimAlone(r: QueueRecord): seq<QueueRecord> {
    if r.requestId == "" then [r] else [QueueRecord("request.json", "", "repair_request", r.requestId, "", ""), r]
  }

  /** The claim check looks at the raw kind and the classifier at the stripped one: a claim whose kind
      does not itself end in the suffix is routed as a canonical action and needs no decision. */
  lemma PaddedClaimNeedsNoDecision(r: QueueRecord, router: Router)
    requires r.schema != "claim-alias/v1" && EndsWith(Porcelain.Strip(r.kind), "_claim") && !EndsWith(r.kind, "_claim")
    requires Routes(ClaimAlone(r), router)
    ensures router.canonicalOnly && !exists d :: d in ClaimAlone(r) && Accepts(d, r.requestId)
  {
    hide EndsWith;
    var queue := ClaimAlone(r);
    ClaimsAreActions(r);
    ClaimsAreNotDecisions(r);
    RequestsStand(r.requestId);
    forall q, reason | q in queue ensures !Offends(queue, q, reason) {
      if r.requestId != "" { assert IsRequest(queue[0], r.requestId); }
    }
    CanonicalMeans(queue, router);
  }

  lemma ClaimsAreNotDecisions(r: QueueRecord)
    requires EndsWith(Porcelain.Strip(r.kind), "_claim")
    ensures r.kind != "repair_request_decision"
  {
    var kind := "repair_request_decision";
    assert Porcelain.StripLeft(kind) == kind && Porcelain.StripRight(kind) == kind;
    assert "_claim"[5] == 'm' && kind[22] == 'n';
    var stripped := Porcelain.Strip(r.kind);
    assert stripped[|stripped| - 6..][5] == stripped[|stripped| - 1];
  }

  lemma RequestsStand(id: string)
    ensures var q := QueueRecord("request.json", "", "repair_request", id, "", "");
            Classify(q).0 == Action && !EndsWith(q.kind, "_claim") && IsRequest(q, id) && !Accepts(q, id)
  {
    var kind := "repair_request";
    assert kind != "repair_request_decision" by { assert |kind| == 14; }
    assert Porcelain.StripLeft(kind) == kind && Porcelain.StripRight(kind) == kind;
    assert kind[8..][5] == 't' && "_claim"[5] == 'm';
  }

  /** Exactly which claims a canonical queue is bound to have a decision for: those whose raw kind ends
      in the suffix. */
  lemma ClaimNeedsDecisionExactlyWhen(r: QueueRecord)
    requires r.schema != "claim-alias/v1" && EndsWith(Porcelain.Strip(r.kind), "_claim")
    ensures (forall records, router :: Routes(records, router) && router.canonicalOnly && r in records ==>
               exists d :: d in records && Accepts(d, r.requestId))
            <==> EndsWith(r.kind, "_claim")
  {
    hide EndsWith;
    hide Accepts;
    if EndsWith(r.kind, "_claim") {
      forall records, router | Routes(records, router) && router.canonicalOnly && r in records
        ensures exists d :: d in records && Accepts(d, r.requestId)
      {
        CanonicalClaimsAreAccepted(records, router, r);
      }
    } else {
      var router := CanonicalRouter(r);
      PaddedClaimNeedsNoDecision(r, router);
      assert r in ClaimAlone(r);
    }
  }

  /** The router that this queue gets. */
  lemma CanonicalRouter(r: QueueRecord) returns (router: Router)
    requires r.schema != "claim-alias/v1" && EndsWith(Porcelain.Strip(r.kind), "_claim") && !EndsWith(r.kind, "_claim")
    ensures Routes(ClaimAlone(r), router)
  {
    hide EndsWith;
    var queue := ClaimAlone(r);
    ClaimsAreActions(r);
    RequestsStand(r.requestId);
    forall q, reason | q in queue ensures !Offends(queue, q, reason) {
      if r.requestId != "" { assert IsRequest(queue[0], r.requestId); }
    }
    router := Router(Entries(queue, Action), Entries(queue, Receipt), Entries(queue, Index), [], true);
  }
}
