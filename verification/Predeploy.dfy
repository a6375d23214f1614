/** The baseline envelope (`scripts/fixer_recovery_baseline.py`) and the checks that re-verify it
    against the live state (`scripts/fixer_recovery_predeploy.py`). */
module Predeploy {
  import opened Prelude
  import Ordering
  import opened Baseline

  /** A branch ref and its commit; no commit for a pattern that matched nothing. */
  datatype Ref = Ref(name: string, commit: string)

  datatype Capture = Capture(source: string, files: seq<FileRecord>, window: Window)

  /** Everything under the content address. `rest` is what no check here looks at. */
  datatype Payload = Payload(
    schema: string, captures: seq<Capture>, refs: seq<Ref>, overlaps: seq<string>, router: Router, coherent: bool, rest: string)

  datatype Envelope = Envelope(baselineId: string, capturedAt: string, contentSha: string, payload: Payload)

  const BASELINE_SCHEMA := "arnold.megaplan.fixer_recovery_baseline.v1"

  /** The live state: the readable files with their digests, whether the git root is there, and the
      refs git lists for the recorded patterns. */
  datatype Live = Live(files: map<string, string>, gitRoot: bool, refs: seq<Ref>)

  function AllFiles(captures: seq<Capture>): seq<FileRecord> {
    if captures == [] then [] else AllFiles(captures[..|captures| - 1]) + captures[|captures| - 1].files
  }

  // ---- Refs -----------------------------------------------------------------------

  /** `_ref_matches` */
  predicate RefMatches(name: string, pattern: string) {
    if EndsWith(pattern, "/*") then |pattern| - 1 <= |name| && name[..|pattern| - 1] == pattern[..|pattern| - 1]
    else name == pattern
  }

  /** A pattern that ends in a wildcard matches what lies under its prefix; any other matches itself. */
  lemma RefMatchesMeans(name: string, prefix: string, pattern: string)
    ensures RefMatches(name, prefix + "/*") <==> exists rest: string :: name == prefix + "/" + rest
    ensures !(|pattern| >= 2 && pattern[|pattern| - 2] == '/' && pattern[|pattern| - 1] == '*') ==> (RefMatches(name, pattern) <==> name == pattern)
  {
    var glob := prefix + "/*";
    assert glob[|glob| - 2..] == "/*" && glob[..|glob| - 1] == prefix + "/";
    if RefMatches(name, glob) {
      assert name == prefix + "/" + name[|prefix| + 1..];
    }
    if rest: string :| name == prefix + "/" + rest {
      assert name[..|prefix| + 1] == prefix + "/";
    }
    if EndsWith(pattern, "/*") {
      assert pattern[|pattern| - 2..][0] == '/' && pattern[|pattern| - 2..][1] == '*';
    }
  }

  function Matches(resolved: seq<Ref>, pattern: string): seq<Ref> {
    if resolved == [] then []
    else
      var init, r := resolved[..|resolved| - 1], resolved[|resolved| - 1];
      Matches(init, pattern) + if RefMatches(r.name, pattern) then [r] else []
  }

  lemma {:induction false} MatchesAre(resolved: seq<Ref>, pattern: string, r: Ref)
    ensures r in Matches(resolved, pattern) <==> r in resolved && RefMatches(r.name, pattern)
  {
    if resolved != [] {
      var init, last := resolved[..|resolved| - 1], resolved[|resolved| - 1];
      assert resolved == init + [last];
      MatchesAre(init, pattern, r);
    }
  }

  /** The recorded refs: each live one that a pattern matches, and each pattern that matched none. */
  ghost predicate AreRefs(patterns: seq<string>, resolved: seq<Ref>, refs: seq<Ref>) {
    forall r :: r in refs <==>
      || (r in resolved && exists p :: p in patterns && RefMatches(r.name, p))
      || (r.commit == "" && r.name in patterns && forall x :: x in resolved ==> !RefMatches(x.name, r.name))
  }

  /** The ref part of `capture_reconcile`. */
  method CaptureRefs(patterns: seq<string>, resolved: seq<Ref>) returns (refs: seq<Ref>)
    ensures AreRefs(patterns, resolved, refs)
    ensures Ordering.Sorted((r: Ref) => r.name, refs)
  {
    hide RefMatches;
    var found: seq<Ref> := [];
    for i := 0 to |patterns|
      invariant forall r :: r in found <==> exists k :: 0 <= k < i && FromPattern(patterns[k], resolved, r)
    {
      var matches := Matches(resolved, patterns[i]);
      forall r ensures r in matches <==> r in resolved && RefMatches(r.name, patterns[i]) {
        MatchesAre(resolved, patterns[i], r);
      }
      if matches != [] {
        assert matches[0] in matches;
        found := found + matches;
      } else {
        assert forall x :: x in resolved ==> x !in matches;
        found := found + [Ref(patterns[i], "")];
      }
    }
    refs := Ordering.Sort((r: Ref) => r.name, found);
    Ordering.SortSorts((r: Ref) => r.name, found);
    forall r ensures r in refs <==> exists k :: 0 <= k < |patterns| && FromPattern(patterns[k], resolved, r) {
      assert r in refs <==> r in multiset(refs);
      assert r in found <==> r in multiset(found);
    }
    FromPatternsAreRefs(patterns, resolved, refs);
  }

  ghost predicate FromPattern(pattern: string, resolved: seq<Ref>, r: Ref) {
    || (r in resolved && RefMatches(r.name, pattern))
    || (r == Ref(pattern, "") && forall x :: x in resolved ==> !RefMatches(x.name, pattern))
  }

  lemma FromPatternsAreRefs(patterns: seq<string>, resolved: seq<Ref>, refs: seq<Ref>)
    requires forall r :: r in refs <==> exists k :: 0 <= k < |patterns| && FromPattern(patterns[k], resolved, r)
    ensures AreRefs(patterns, resolved, refs)
  {
    hide RefMatches;
    forall r
      ensures r in refs <==>
        || (r in resolved && exists p :: p in patterns && RefMatches(r.name, p))
        || (r.commit == "" && r.name in patterns && forall x :: x in resolved ==> !RefMatches(x.name, r.name))
    {
      if r in refs {
        var k :| 0 <= k < |patterns| && FromPattern(patterns[k], resolved, r);
        assert patterns[k] in patterns;
      }
      if p :| p in patterns && r in resolved && RefMatches(r.name, p) {
        var k :| 0 <= k < |patterns| && patterns[k] == p;
        assert FromPattern(patterns[k], resolved, r);
      }
      if r.commit == "" && r.name in patterns && forall x :: x in resolved ==> !RefMatches(x.name, r.name) {
        var k :| 0 <= k < |patterns| && patterns[k] == r.name;
        assert FromPattern(patterns[k], resolved, r);
      }
    }
  }

  // ---- The envelope ---------------------------------------------------------------

  ghost predicate Overlapping(files: seq<FileRecord>, path: string) {
    exists i, j :: 0 <= i < j < |files| && files[i].path == path && files[j].path == path
  }

  /** The loop of `_build_envelope` that finds the paths of more than one window. */
  method FindOverlaps(captures: seq<Capture>) returns (overlaps: seq<string>)
    ensures forall p :: p in overlaps <==> Overlapping(AllFiles(captures), p)
  {
    var files := AllFiles(captures);
    var seen: set<string> := {};
    overlaps := [];
    for i := 0 to |files|
      invariant forall p :: p in seen <==> exists k :: 0 <= k < i && files[k].path == p
      invariant forall p :: p in overlaps <==> Overlapping(files[..i], p)
    {
      var path := files[i].path;
      OverlapSnoc(files[..i], files[i]);
      assert files[..i + 1] == files[..i] + [files[i]];
      assert path in seen <==> exists k :: 0 <= k < |files[..i]| && files[..i][k].path == path;
      if path in seen && path !in overlaps {
        overlaps := overlaps + [path];
      }
      seen := seen + {path};
    }
    assert files[..|files|] == files;
  }

  lemma OverlapSnoc(files: seq<FileRecord>, f: FileRecord)
    ensures forall p :: Overlapping(files + [f], p) <==>
      Overlapping(files, p) || (p == f.path && exists k :: 0 <= k < |files| && files[k].path == p)
  {
    var more := files + [f];
    forall p | Overlapping(files, p) ensures Overlapping(more, p) {
      var i, j :| 0 <= i < j < |files| && files[i].path == p && files[j].path == p;
      assert more[i].path == p && more[j].path == p;
    }
    forall p | p == f.path && exists k :: 0 <= k < |files| && files[k].path == p ensures Overlapping(more, p) {
      var k :| 0 <= k < |files| && files[k].path == p;
      assert more[k].path == p && more[|files|].path == p;
    }
  }

  predicate WindowFine(w: Window) {
    !w.torn && w.ordered
  }

  /** What makes a payload one that the collector built: every window spans its files, the overlaps
      are all found, and coherence says so. */
  ghost predicate IsPayload(p: Payload) {
    && p.schema == BASELINE_SCHEMA
    && (forall c :: c in p.captures ==> Spans(c.source, c.files, c.window))
    && (forall q :: q in p.overlaps <==> Overlapping(AllFiles(p.captures), q))
    && (p.router.canonicalOnly <==> p.router.violations == [])
    && (p.coherent <==> (forall c :: c in p.captures ==> WindowFine(c.window)) && p.overlaps == [] && p.router.canonicalOnly)
  }

  ghost predicate IsEnvelope(digest: Payload -> string, e: Envelope) {
    IsPayload(e.payload) && e.baselineId == digest(e.payload) && e.contentSha == digest(e.payload)
  }

  /** `_build_envelope` */
  method BuildEnvelope(digest: Payload -> string, captures: seq<Capture>, refs: seq<Ref>, router: Router, rest: string, now: string)
    returns (e: Envelope)
    requires forall c :: c in captures ==> Spans(c.source, c.files, c.window)
    requires router.canonicalOnly <==> router.violations == []
    ensures IsEnvelope(digest, e) && e.capturedAt == now
    ensures e.payload.captures == captures && e.payload.refs == refs && e.payload.router == router && e.payload.rest == rest
  {
    hide Spans;
    var overlaps := FindOverlaps(captures);
    var fine := true;
    for i := 0 to |captures|
      invariant fine <==> forall k :: 0 <= k < i ==> WindowFine(captures[k].window)
    {
      fine := fine && !captures[i].window.torn && captures[i].window.ordered;
    }
    var p := Payload(BASELINE_SCHEMA, captures, refs, overlaps, router, fine && overlaps == [] && router.canonicalOnly, rest);
    e := Envelope(digest(p), now, digest(p), p);
  }

  /** One window of the capture: where it reads and under which name. */
  datatype Source = Source(name: string, paths: seq<string>)

  /** The captures are the readings of the sources, in order. */
  ghost predicate Captured(sources: seq<Source>, readings: map<string, Reading>, captures: seq<Capture>) {
    && |captures| == |sources|
    && forall i :: 0 <= i < |sources| ==>
         && captures[i].source == sources[i].name
         && AreRecords(sources[i].paths, readings, captures[i].files)
         && Spans(sources[i].name, captures[i].files, captures[i].window)
  }

  /** `capture_baseline`, given the paths of every source, the parsed queue and the resolved refs. */
  method CaptureBaseline(digest: Payload -> string, sources: seq<Source>, readings: map<string, Reading>, queue: seq<QueueRecord>,
                         patterns: seq<string>, resolved: seq<Ref>, rest: string, now: string)
    returns (e: Option<Envelope>)
    ensures e.Some? ==>
      && IsEnvelope(digest, e.value)
      && Captured(sources, readings, e.value.payload.captures)
      && AreRefs(patterns, resolved, e.value.payload.refs)
      && Routes(queue, e.value.payload.router)
    ensures e.Some? <==>
      && (forall s, p :: s in sources && p in s.paths ==> Readable(p, readings))
      && (forall r :: r in queue && r.kind == "repair_request" ==> r.requestId != "")
  {
    hide Spans;
    hide AreRecords;
    hide AreRefs;
    var captures: seq<Capture> := [];
    for i := 0 to |sources|
      invariant Captured(sources[..i], readings, captures)
      invariant forall s, p :: s in sources[..i] && p in s.paths ==> Readable(p, readings)
    {
      var c := CaptureFiles(sources[i].name, sources[i].paths, readings);
      if c.None? {
        assert sources[i] in sources;
        return None;
      }
      captures := captures + [Capture(sources[i].name, c.value.0, c.value.1)];
    }
    assert sources[..|sources|] == sources;
    var router := RouteQueue(queue);
    if router.None? {
      return None;
    }
    var refs := CaptureRefs(patterns, resolved);
    var built := BuildEnvelope(digest, captures, refs, router.value, rest, now);
    e := Some(built);
  }

  // ---- The checks -----------------------------------------------------------------

  /** `check_baseline_proof`, after loading. */
  predicate Addressed(digest: Payload -> string, e: Envelope) {
    e.payload.schema == BASELINE_SCHEMA && e.contentSha != "" && e.contentSha == digest(e.payload) && e.baselineId == digest(e.payload)
  }

  /** The live ref of a name, as the list comprehension and its `[0]` find it. */
  function LiveRef(refs: seq<Ref>, name: string): (r: Option<Ref>)
    ensures r.Some? ==> r.value in refs && r.value.name == name
    ensures r.None? ==> forall x :: x in refs ==> x.name != name
  {
    if refs == [] then None else if refs[0].name == name then Some(refs[0]) else LiveRef(refs[1..], name)
  }

  predicate RefUnchanged(r: Ref, live: seq<Ref>) {
    if r.commit != "" then LiveRef(live, r.name) == Some(r) else LiveRef(live, r.name).None?
  }

  predicate FileUnchanged(f: FileRecord, live: Live) {
    f.path in live.files && live.files[f.path] == f.digest
  }

  /** Every captured file is there with its recorded content, and every recorded ref is as recorded. */
  ghost predicate Unchanged(p: Payload, live: Live) {
    && (forall f :: f in AllFiles(p.captures) ==> FileUnchanged(f, live))
    && live.gitRoot
    && (forall r :: r in p.refs ==> RefUnchanged(r, live.refs))
  }

  datatype Drift = GitRootMissing | RefGone(name: string) | RefMoved(name: string) | RefAppeared(name: string)

  /** What is reported of one recorded ref. */
  function DriftOf(r: Ref, live: seq<Ref>): Option<Drift> {
    if r.commit != "" && LiveRef(live, r.name).None? then Some(RefGone(r.name))
    else if r.commit != "" && LiveRef(live, r.name).value.commit != r.commit then Some(RefMoved(r.name))
    else if r.commit == "" && LiveRef(live, r.name).Some? then Some(RefAppeared(r.name))
    else None
  }

  /** The loop over the captured files. */
  method CheckFiles(files: seq<FileRecord>, live: Live) returns (missing: seq<string>, mismatched: seq<string>)
    ensures forall q :: q in missing <==> q !in live.files && exists f :: f in files && f.path == q
    ensures forall q :: q in mismatched <==> q in live.files && exists f :: f in files && f.path == q && live.files[q] != f.digest
    ensures missing == [] && mismatched == [] <==> forall k :: 0 <= k < |files| ==> FileUnchanged(files[k], live)
  {
    missing, mismatched := [], [];
    for i := 0 to |files|
      invariant forall q :: q in missing <==> q !in live.files && exists k :: 0 <= k < i && files[k].path == q
      invariant forall q :: q in mismatched <==>
        q in live.files && exists k :: 0 <= k < i && files[k].path == q && live.files[q] != files[k].digest
      invariant missing == [] && mismatched == [] <==> forall k :: 0 <= k < i ==> FileUnchanged(files[k], live)
    {
      if files[i].path !in live.files {
        missing := missing + [files[i].path];
      } else if live.files[files[i].path] != files[i].digest {
        mismatched := mismatched + [files[i].path];
      }
    }
  }

  /** The loop over the recorded refs. */
  method CheckRefs(refs: seq<Ref>, live: seq<Ref>) returns (drift: seq<Drift>)
    ensures forall d :: d in drift <==> exists r :: r in refs && DriftOf(r, live) == Some(d)
    ensures drift == [] <==> forall k :: 0 <= k < |refs| ==> RefUnchanged(refs[k], live)
  {
    drift := [];
    for i := 0 to |refs|
      invariant forall d :: d in drift <==> exists k :: 0 <= k < i && DriftOf(refs[k], live) == Some(d)
      invariant drift == [] <==> forall k :: 0 <= k < i ==> RefUnchanged(refs[k], live)
    {
      var r, now := refs[i], LiveRef(live, refs[i].name);
      if r.commit != "" && now.None? {
        drift := drift + [RefGone(r.name)];
      } else if r.commit != "" && now.value.commit != r.commit {
        drift := drift + [RefMoved(r.name)];
      } else if r.commit == "" && now.Some? {
        drift := drift + [RefAppeared(r.name)];
      }
    }
  }

  /** What a reported drift means: the recorded ref is gone, or now has another commit first under its name, or
      a pattern that matched nothing now names a ref. */
  lemma DriftMeans(r: Ref, live: seq<Ref>)
    ensures DriftOf(r, live).None? <==> RefUnchanged(r, live)
    ensures match DriftOf(r, live)
            case None => if r.commit == "" then forall x :: x in live ==> x.name != r.name else r in live
            case Some(RefGone(name)) => name == r.name && r.commit != "" && forall x :: x in live ==> x.name != name
            case Some(RefMoved(name)) => name == r.name && r.commit != "" && exists x :: x in live && x.name == name && x.commit != r.commit
            case Some(RefAppeared(name)) => name == r.name && r.commit == "" && exists x :: x in live && x.name == name
            case Some(GitRootMissing) => false
  {
    var now := LiveRef(live, r.name);
    hide LiveRef;
    if now.Some? {
      assert now.value in live && now.value.name == r.name;
    }
  }

  /** `check_source_proof` */
  method CheckSourceProof(p: Payload, live: Live) returns (passed: bool, missing: seq<string>, mismatched: seq<string>, drift: seq<Drift>)
    ensures passed <==> Unchanged(p, live)
    ensures forall q :: q in missing <==> q !in live.files && exists f :: f in AllFiles(p.captures) && f.path == q
    ensures forall q :: q in mismatched <==>
      q in live.files && exists f :: f in AllFiles(p.captures) && f.path == q && live.files[q] != f.digest
    ensures forall d :: d in drift <==>
      if live.gitRoot then exists r :: r in p.refs && DriftOf(r, live.refs) == Some(d) else d == GitRootMissing
  {
    hide AllFiles;
    hide Unchanged;
    hide DriftOf;
    hide RefUnchanged;
    hide FileUnchanged;
    var files := AllFiles(p.captures);
    missing, mismatched := CheckFiles(files, live);
    if live.gitRoot {
      drift := CheckRefs(p.refs, live.refs);
    } else {
      drift := [GitRootMissing];
    }
    passed := missing == [] && mismatched == [] && drift == [];
    ChangeFound(p, live, files, missing == [] && mismatched == [], drift == []);
  }

  lemma ChangeFound(p: Payload, live: Live, all: seq<FileRecord>, files: bool, refs: bool)
    requires all == AllFiles(p.captures)
    requires files <==> forall k :: 0 <= k < |all| ==> FileUnchanged(all[k], live)
    requires refs <==> live.gitRoot && forall k :: 0 <= k < |p.refs| ==> RefUnchanged(p.refs[k], live.refs)
    ensures files && refs <==> Unchanged(p, live)
  {
    hide AllFiles;
    hide RefUnchanged;
    hide FileUnchanged;
    if files && refs {
      forall f | f in all ensures FileUnchanged(f, live) {
        var k :| 0 <= k < |all| && all[k] == f;
      }
      forall r | r in p.refs ensures RefUnchanged(r, live.refs) {
        var k :| 0 <= k < |p.refs| && p.refs[k] == r;
      }
    }
    if Unchanged(p, live) {
      forall k | 0 <= k < |all| ensures FileUnchanged(all[k], live) {
        assert all[k] in all;
      }
      forall k | 0 <= k < |p.refs| ensures RefUnchanged(p.refs[k], live.refs) {
        assert p.refs[k] in p.refs;
      }
    }
  }

  /** `check_window_integrity` */
  method CheckWindowIntegrity(p: Payload) returns (passed: bool, torn: seq<string>, unordered: seq<string>)
    ensures passed <==> (forall c :: c in p.captures ==> WindowFine(c.window)) && p.overlaps == []
    ensures forall source :: source in torn <==> exists c :: c in p.captures && c.source == source && c.window.torn
    ensures forall source :: source in unordered <==> exists c :: c in p.captures && c.source == source && !c.window.ordered
  {
    torn, unordered := [], [];
    for i := 0 to |p.captures|
      invariant forall source :: source in torn <==> exists k :: 0 <= k < i && p.captures[k].source == source && p.captures[k].window.torn
      invariant forall source :: source in unordered <==>
        exists k :: 0 <= k < i && p.captures[k].source == source && !p.captures[k].window.ordered
      invariant torn == [] && unordered == [] <==> forall k :: 0 <= k < i ==> WindowFine(p.captures[k].window)
    {
      if p.captures[i].window.torn {
        torn := torn + [p.captures[i].source];
      }
      if !p.captures[i].window.ordered {
        unordered := unordered + [p.captures[i].source];
      }
    }
    passed := torn == [] && unordered == [] && p.overlaps == [];
  }

  /** `check_canonical_router` */
  predicate CanonicalRouter(p: Payload) {
    p.router.violations == [] && p.router.canonicalOnly
  }

  /** The four checks together. */
  method Verify(digest: Payload -> string, e: Envelope, live: Live) returns (passed: bool)
    ensures passed <==> Passes(digest, e, live)
  {
    if !Addressed(digest, e) {
      return false;
    }
    var source, _, _, _ := CheckSourceProof(e.payload, live);
    var windows, _, _ := CheckWindowIntegrity(e.payload);
    passed := source && windows && CanonicalRouter(e.payload);
  }

  ghost predicate Passes(digest: Payload -> string, e: Envelope, live: Live) {
    && Addressed(digest, e)
    && Unchanged(e.payload, live)
    && (forall c :: c in e.payload.captures ==> WindowFine(c.window)) && e.payload.overlaps == []
    && CanonicalRouter(e.payload)
  }

  // ---- The theorems ---------------------------------------------------------------

  /** A digest is never the empty string, which the check takes for a missing address. */
  ghost predicate Digests(digest: Payload -> string) {
    forall p :: digest(p) != ""
  }

  /** Capture and verification agree: a captured envelope passes against a later live state exactly
      when the capture was coherent and everything captured is unchanged. */
  lemma CaptureAndVerifyAgree(digest: Payload -> string, e: Envelope, live: Live)
    requires Digests(digest) && IsEnvelope(digest, e)
    ensures Passes(digest, e, live) <==> e.payload.coherent && Unchanged(e.payload, live)
  {
    hide Unchanged;
    hide Spans;
  }

  lemma {:induction false} FilesAre(captures: seq<Capture>, f: FileRecord)
    ensures f in AllFiles(captures) <==> exists c :: c in captures && f in c.files
  {
    if captures != [] {
      var n := |captures| - 1;
      assert captures == captures[..n] + [captures[n]];
      FilesAre(captures[..n], f);
    }
  }

  lemma FilesUnchanged(captures: seq<Capture>, files: seq<FileRecord>, live: Live)
    requires files == AllFiles(captures)
    ensures (forall f :: f in files ==> FileUnchanged(f, live))
            <==> forall c, f :: c in captures && f in c.files ==> f.path in live.files && live.files[f.path] == f.digest
  {
    if forall f :: f in files ==> FileUnchanged(f, live) {
      forall c, f | c in captures && f in c.files ensures f.path in live.files && live.files[f.path] == f.digest {
        FilesAre(captures, f);
        assert FileUnchanged(f, live);
      }
    }
    if forall c, f :: c in captures && f in c.files ==> f.path in live.files && live.files[f.path] == f.digest {
      forall f | f in files ensures FileUnchanged(f, live) {
        FilesAre(captures, f);
      }
    }
  }

  /** What it takes to pass, in the fields of the envelope and the live state. */
  lemma PassesExactlyWhen(digest: Payload -> string, e: Envelope, live: Live)
    requires Digests(digest)
    ensures Passes(digest, e, live) <==>
      && e == Envelope(digest(e.payload), e.capturedAt, digest(e.payload), e.payload)
      && e.payload.schema == "arnold.megaplan.fixer_recovery_baseline.v1"
      && (forall c, f :: c in e.payload.captures && f in c.files ==> f.path in live.files && live.files[f.path] == f.digest)
      && live.gitRoot && (forall r :: r in e.payload.refs ==> DriftOf(r, live.refs).None?)
      && (forall c :: c in e.payload.captures ==> !c.window.torn && c.window.ordered)
      && e.payload.overlaps == [] && e.payload.router.violations == [] && e.payload.router.canonicalOnly
  {
    forall r: Ref ensures DriftOf(r, live.refs).None? <==> RefUnchanged(r, live.refs) {
      DriftMeans(r, live.refs);
    }
    FilesUnchanged(e.payload.captures, AllFiles(e.payload.captures), live);
    hide DriftOf;
    hide RefUnchanged;
    hide FileUnchanged;
  }

  /** A capture is coherent exactly when no file changed under its read, none was captured twice, and the queue has
      no violation: a window that is not torn is always ordered. */
  lemma CoherentExactlyWhen(p: Payload, files: seq<FileRecord>)
    requires IsPayload(p) && files == AllFiles(p.captures)
    ensures p.coherent <==>
      && (forall c, f :: c in p.captures && f in c.files ==> f.start == f.end)
      && (forall i, j :: 0 <= i < j < |files| ==> files[i].path != files[j].path)
      && p.router.violations == []
  {
    forall c | c in p.captures ensures WindowFine(c.window) <==> forall f :: f in c.files ==> f.start == f.end {
      assert Spans(c.source, c.files, c.window);
    }
    hide WindowFine;
    hide Spans;
    assert forall q :: q in p.overlaps <==> Overlapping(files, q);
    if p.overlaps != [] {
      assert p.overlaps[0] in p.overlaps;
    }
    assert (forall c :: c in p.captures ==> WindowFine(c.window)) <==> forall c, f :: c in p.captures && f in c.files ==> f.start == f.end;
    if i, j :| 0 <= i < j < |files| && files[i].path == files[j].path {
      assert Overlapping(files, files[i].path);
    }
    assert p.overlaps == [] <==> forall q :: !Overlapping(files, q);
    assert p.coherent <==> (forall c :: c in p.captures ==> WindowFine(c.window)) && p.overlaps == [] && p.router.canonicalOnly;
    assert p.coherent <==> (forall c, f :: c in p.captures && f in c.files ==> f.start == f.end) && p.overlaps == [] && p.router.violations == [];
  }

  /** Against the very state it was read from, every captured envelope is unchanged, torn or not: the
      files as they were read and the refs as git listed them. */
  lemma FreshCaptureIsUnchanged(sources: seq<Source>, readings: map<string, Reading>, patterns: seq<string>, resolved: seq<Ref>,
                                p: Payload, live: Live)
    requires Captured(sources, readings, p.captures) && AreRefs(patterns, resolved, p.refs)
    requires live.gitRoot && live.refs == resolved
    requires forall r :: r in resolved ==> r.commit != "" && LiveRef(resolved, r.name) == Some(r)
    requires forall q :: Readable(q, readings) ==> q in live.files && live.files[q] == readings[q].digest
    ensures Unchanged(p, live)
  {
    forall f | f in AllFiles(p.captures) ensures FileUnchanged(f, live) {
      FilesAreRead(sources, readings, p.captures, f);
    }
    forall r | r in p.refs ensures RefUnchanged(r, live.refs) {
      if r.commit == "" && LiveRef(live.refs, r.name).Some? {
        PatternMatchesItself(r.name);
      }
    }
  }

  /** So a coherent capture over files and refs that stay as they were passes all four checks. */
  lemma CoherentCapturePasses(digest: Payload -> string, sources: seq<Source>, readings: map<string, Reading>,
                              patterns: seq<string>, resolved: seq<Ref>, e: Envelope, live: Live)
    requires Digests(digest) && IsEnvelope(digest, e) && e.payload.coherent
    requires Captured(sources, readings, e.payload.captures) && AreRefs(patterns, resolved, e.payload.refs)
    requires live.gitRoot && live.refs == resolved
    requires forall r :: r in resolved ==> r.commit != "" && LiveRef(resolved, r.name) == Some(r)
    requires forall q :: Readable(q, readings) ==> q in live.files && live.files[q] == readings[q].digest
    ensures Passes(digest, e, live)
  {
    hide Unchanged;
    hide Captured;
    hide AreRefs;
    FreshCaptureIsUnchanged(sources, readings, patterns, resolved, e.payload, live);
    CaptureAndVerifyAgree(digest, e, live);
  }

  lemma PatternMatchesItself(pattern: string)
    ensures RefMatches(pattern, pattern)
  {
  }

  lemma {:induction false} FilesAreRead(sources: seq<Source>, readings: map<string, Reading>, captures: seq<Capture>, f: FileRecord)
    requires Captured(sources, readings, captures) && f in AllFiles(captures)
    ensures Readable(f.path, readings) && f == RecordOf(f.path, readings)
    decreases |captures|
  {
    hide Spans;
    var n := |captures| - 1;
    if f in captures[n].files {
      assert AreRecords(sources[n].paths, readings, captures[n].files);
    } else {
      assert Captured(sources[..n], readings, captures[..n]);
      FilesAreRead(sources[..n], readings, captures[..n], f);
    }
  }

  /** Drift of a file: whatever else holds, a captured file that is gone or has other content fails. */
  lemma ChangedFileFails(digest: Payload -> string, e: Envelope, live: Live, f: FileRecord)
    requires f in AllFiles(e.payload.captures) && (f.path !in live.files || live.files[f.path] != f.digest)
    ensures !Passes(digest, e, live)
  {
    assert !FileUnchanged(f, live);
  }

  /** Two payloads under one digest. */
  ghost predicate Collides(digest: Payload -> string, p: Payload, q: Payload) {
    p != q && digest(p) == digest(q)
  }

  /** The content address, unless the edit collides with the original: an edited envelope that keeps
      either address passes exactly when nothing but the capture time was edited, and one whose
      payload was edited passes only with both addresses replaced. */
  lemma EditsAreCaught(digest: Payload -> string, e: Envelope, edited: Envelope)
    requires Digests(digest) && Addressed(digest, e) && !Collides(digest, e.payload, edited.payload)
    ensures edited.contentSha == e.contentSha || edited.baselineId == e.baselineId ==>
      (Addressed(digest, edited) <==> edited == e.(capturedAt := edited.capturedAt))
    ensures Addressed(digest, edited) && edited.payload != e.payload ==>
      edited.contentSha != e.contentSha && edited.baselineId != e.baselineId
  {
  }

  /** A ref that appears after an otherwise unchanged capture is seen exactly when its whole name was
      recorded as a pattern without a match. Under `refs/heads/fixer/` with `*` no ref has that
      name, so a new branch of the family never fails the check. */
  lemma NewRefIsSeenExactlyWhen(p: Payload, live: Live, r: Ref)
    requires Unchanged(p, live)
    requires LiveRef(live.refs, r.name).None?
    ensures Unchanged(p, live.(refs := live.refs + [r])) <==> forall q :: q in p.refs ==> q.name != r.name
  {
    var after := live.refs + [r];
    forall name
      ensures LiveRef(after, name)
           == if LiveRef(live.refs, name).Some? then LiveRef(live.refs, name) else if r.name == name then Some(r) else None
    {
      LiveRefSnoc(live.refs, r, name);
    }
    forall q | q in p.refs ensures RefUnchanged(q, after) <==> q.name != r.name {
      assert RefUnchanged(q, live.refs);
    }
    forall f | f in AllFiles(p.captures) ensures FileUnchanged(f, live.(refs := after)) {
      assert FileUnchanged(f, live);
    }
    if q :| q in p.refs && q.name == r.name {
      assert !RefUnchanged(q, after);
    }
  }

  lemma {:induction false} LiveRefSnoc(refs: seq<Ref>, r: Ref, name: string)
    ensures LiveRef(refs + [r], name) == if LiveRef(refs, name).Some? then LiveRef(refs, name) else if r.name == name then Some(r) else None
  {
    if refs == [] {
      assert refs + [r] == [r];
    } else {
      assert (refs + [r])[1..] == refs[1..] + [r];
      LiveRefSnoc(refs[1..], r, name);
    }
  }

  /** Concretely: capture with the fixer family's pattern and no such branch, then one appears. */
  lemma NewBranchUnderGlobIsUnseen(p: Payload, live: Live, commit: string)
    requires AreRefs(["refs/heads/fixer/*"], [], p.refs) && live.refs == [] && Unchanged(p, live)
    ensures RefMatches("refs/heads/fixer/a", "refs/heads/fixer/*")
    ensures Unchanged(p, live.(refs := [Ref("refs/heads/fixer/a", commit)]))
  {
    var r := Ref("refs/heads/fixer/a", commit);
    assert live.refs + [r] == [r];
    assert "refs/heads/fixer/*"[16..] == "/*" && "refs/heads/fixer/*"[..17] == "refs/heads/fixer/a"[..17];
    assert forall q :: q in p.refs ==> q.name == "refs/heads/fixer/*";
    assert "refs/heads/fixer/*"[17] != "refs/heads/fixer/a"[17];
    NewRefIsSeenExactlyWhen(p, live, r);
  }
}
