/** `scripts/check_recovery_topology_surfaces.py`: the closure manifest over the detected authority
    surfaces, and the classifier that compares it with what is detected later. */
module Closure {
  import opened Prelude
  import Ordering

  /** A detected surface, as far as closure looks at it. */
  datatype Surface = Surface(id: string, family: string, kind: string, location: string, hash: string)

  datatype Proof = Proof(evidenceRef: string, forbids: set<string>, complete: bool)

  datatype Record = Record(
    id: string, family: string, kind: string, location: string, hash: string,
    closureState: string, targetStep: string, proof: Option<Proof>)

  const FORBIDDEN: set<string> := {"label", "liveness", "wbc_receipt", "rebuildable_projection"}

  const CLOSED := "closed"

  function EvidenceRef(id: string, hash: string): string {
    "evidence/m11-recovery-topology-surfaces.json#surface=" + id + "&content_hash=" + hash
  }

  /** The closing step of each detection kind (`_KIND_CLOSURE_STEPS`), and the declared kinds. */
  datatype Schema = Schema(steps: map<string, string>, declared: set<string>)

  function RecordOf(s: Surface, step: string): Record {
    Record(s.id, s.family, s.kind, s.location, s.hash, CLOSED, step, Some(Proof(EvidenceRef(s.id, s.hash), FORBIDDEN, true)))
  }

  // ---- Scanning -----------------------------------------------------------------

  /** The surface the scan keeps for an id: the first. */
  function First(xs: seq<Surface>, id: string): Option<Surface> {
    if xs == [] then None else if xs[0].id == id then Some(xs[0]) else First(xs[1..], id)
  }

  ghost predicate DistinctIds(xs: seq<Surface>) {
    forall i, j :: 0 <= i < j < |xs| ==> xs[i].id != xs[j].id
  }

  lemma {:induction false} FirstSnoc(xs: seq<Surface>, x: Surface, id: string)
    ensures First(xs + [x], id) == if First(xs, id).Some? then First(xs, id) else if x.id == id then Some(x) else None
  {
    if xs == [] {
      assert xs + [x] == [x];
    } else {
      assert (xs + [x])[1..] == xs[1..] + [x];
      FirstSnoc(xs[1..], x, id);
    }
  }

  /** The deduplication that ends `_scan_surfaces`. Each surface kept is the first with its id, so a
      surface sharing the id of an earlier one leaves no trace. */
  method Deduplicate(surfaces: seq<Surface>) returns (unique: seq<Surface>)
    ensures DistinctIds(unique)
    ensures forall id :: First(unique, id) == First(surfaces, id)
    ensures forall x :: x in unique <==> First(surfaces, x.id) == Some(x)
  {
    var seen: set<string> := {};
    unique := [];
    for i := 0 to |surfaces|
      invariant DistinctIds(unique)
      invariant forall id :: id in seen <==> First(surfaces[..i], id).Some?
      invariant forall x :: x in unique ==> x.id in seen
      invariant forall id :: First(unique, id) == First(surfaces[..i], id)
      invariant forall x :: x in unique <==> First(surfaces[..i], x.id) == Some(x)
    {
      var s := surfaces[i];
      assert surfaces[..i + 1] == surfaces[..i] + [s];
      forall id
        ensures First(surfaces[..i + 1], id)
             == if First(surfaces[..i], id).Some? then First(surfaces[..i], id) else if s.id == id then Some(s) else None
      {
        FirstSnoc(surfaces[..i], s, id);
      }
      if s.id !in seen {
        seen := seen + {s.id};
        forall id
          ensures First(unique + [s], id) == if First(unique, id).Some? then First(unique, id) else if s.id == id then Some(s) else None
        {
          FirstSnoc(unique, s, id);
        }
        unique := unique + [s];
      }
    }
    assert surfaces[..|surfaces|] == surfaces;
  }

  // ---- The manifest -------------------------------------------------------------

  /** The last surface with an id among those kept: what a dictionary filled in order holds. */
  function Last(keep: Surface -> bool, xs: seq<Surface>, id: string): Option<Surface> {
    if xs == [] then None
    else
      var x := xs[|xs| - 1];
      if x.id == id && keep(x) then Some(x) else Last(keep, xs[..|xs| - 1], id)
  }

  function Everything(): Surface -> bool { s => true }

  function Mapped(schema: Schema): Surface -> bool { (s: Surface) => s.kind in schema.steps }

  ghost predicate IsManifest(schema: Schema, xs: seq<Surface>, m: map<string, Record>) {
    forall id ::
      match Last(Mapped(schema), xs, id)
      case None => id !in m
      case Some(s) => s.kind in schema.steps && id in m && m[id] == RecordOf(s, schema.steps[s.kind])
  }

  lemma {:induction false} LastOfInsert(keep: Surface -> bool, xs: seq<Surface>, x: Surface, id: string)
    ensures Last(keep, Ordering.Insert((s: Surface) => s.id, xs, x), id) == Last(keep, xs + [x], id)
  {
    var key := (s: Surface) => s.id;
    assert (xs + [x])[..|xs|] == xs;
    if xs != [] && Ordering.Lt(x.id, xs[|xs| - 1].id) {
      var init, y := xs[..|xs| - 1], xs[|xs| - 1];
      Ordering.LtTotal(x.id, y.id);
      LastOfInsert(keep, init, x, id);
      assert (init + [x])[..|init|] == init;
      assert Ordering.Insert(key, xs, x) == Ordering.Insert(key, init, x) + [y];
      assert (Ordering.Insert(key, init, x) + [y])[..|Ordering.Insert(key, init, x)|] == Ordering.Insert(key, init, x);
    }
  }

  /** Sorting by id keeps the order of surfaces that share one. */
  lemma {:induction false} LastOfSort(keep: Surface -> bool, xs: seq<Surface>, id: string)
    ensures Last(keep, Ordering.Sort((s: Surface) => s.id, xs), id) == Last(keep, xs, id)
  {
    var key := (s: Surface) => s.id;
    if xs != [] {
      var init, x := xs[..|xs| - 1], xs[|xs| - 1];
      LastOfSort(keep, init, id);
      LastOfInsert(keep, Ordering.Sort(key, init), x, id);
      assert (Ordering.Sort(key, init) + [x])[..|Ordering.Sort(key, init)|] == Ordering.Sort(key, init);
    }
  }

  /** `build_route_closure_manifest` */
  method BuildRouteClosureManifest(schema: Schema, surfaces: seq<Surface>) returns (m: map<string, Record>)
    ensures IsManifest(schema, surfaces, m)
  {
    m := map[];
    var sorted := Ordering.Sort((s: Surface) => s.id, surfaces);
    for i := 0 to |sorted|
      invariant IsManifest(schema, sorted[..i], m)
    {
      var s := sorted[i];
      assert sorted[..i + 1][..i] == sorted[..i];
      if s.kind in schema.steps {
        m := m[s.id := RecordOf(s, schema.steps[s.kind])];
      }
    }
    assert sorted[..|sorted|] == sorted;
    forall id ensures Last(Mapped(schema), sorted, id) == Last(Mapped(schema), surfaces, id) {
      LastOfSort(Mapped(schema), surfaces, id);
    }
  }

  // ---- The classifier -----------------------------------------------------------

  datatype Verdict = Verdict(
    unplanned: set<string>, stale: set<string>, pending: set<string>, mismatched: set<string>, invalidProof: set<string>,
    missingKinds: set<string>, extraKinds: set<string>, unmappedKinds: set<string>,
    closed: set<string>, manifestComplete: bool, closureComplete: bool)

  predicate FieldsMatch(s: Surface, r: Record) {
    r.id == s.id && r.family == s.family && r.kind == s.kind && r.location == s.location && r.hash == s.hash
  }

  predicate ProofHolds(id: string, s: Surface, r: Record) {
    r.proof.Some? && FORBIDDEN <= r.proof.value.forbids && r.proof.value.evidenceRef == EvidenceRef(id, s.hash) && r.proof.value.complete
  }

  /** `detected_by_id` */
  method DetectedById(surfaces: seq<Surface>) returns (d: map<string, Surface>)
    ensures forall id :: (id in d <==> Last(Everything(), surfaces, id).Some?) && (id in d ==> Some(d[id]) == Last(Everything(), surfaces, id))
  {
    d := map[];
    for i := 0 to |surfaces|
      invariant forall id ::
        (id in d <==> Last(Everything(), surfaces[..i], id).Some?) && (id in d ==> Some(d[id]) == Last(Everything(), surfaces[..i], id))
    {
      assert surfaces[..i + 1][..i] == surfaces[..i];
      d := d[surfaces[i].id := surfaces[i]];
    }
    assert surfaces[..|surfaces|] == surfaces;
  }

  predicate KindsMapped(schema: Schema, surfaces: seq<Surface>) {
    forall s :: s in surfaces ==> s.kind in schema.steps
  }

  predicate RecordHolds(id: string, s: Option<Surface>, r: Record) {
    s.Some? && r.closureState == CLOSED && FieldsMatch(s.value, r) && ProofHolds(id, s.value, r)
  }

  /** Every detected surface has its record, closed, equal in every compared field and carrying a
      complete proof bound to that id and hash; every record is detected; every kind has a step. */
  ghost predicate Closed(schema: Schema, surfaces: seq<Surface>, manifest: map<string, Record>) {
    && schema.steps.Keys == schema.declared
    && KindsMapped(schema, surfaces)
    && (forall id :: id in manifest <==> Last(Everything(), surfaces, id).Some?)
    && (forall id :: id in manifest ==> RecordHolds(id, Last(Everything(), surfaces, id), manifest[id]))
  }

  ghost predicate IsDetected(surfaces: seq<Surface>, d: map<string, Surface>) {
    forall id :: (id in d <==> Last(Everything(), surfaces, id).Some?) && (id in d ==> Some(d[id]) == Last(Everything(), surfaces, id))
  }

  function Unmapped(schema: Schema, surfaces: seq<Surface>): (r: set<string>)
    ensures r == {} <==> KindsMapped(schema, surfaces)
    ensures forall k :: k in r <==> exists s :: s in surfaces && s.kind == k && k !in schema.steps
  {
    var r := set s | s in surfaces && s.kind !in schema.steps :: s.kind;
    assert forall s :: s in surfaces && s.kind !in schema.steps ==> s.kind in r;
    r
  }

  function Pending(manifest: map<string, Record>): (r: set<string>)
    ensures r == {} <==> forall id :: id in manifest ==> manifest[id].closureState == CLOSED
    ensures forall id :: id in r <==> id in manifest && manifest[id].closureState != CLOSED
  {
    var r := set id | id in manifest && manifest[id].closureState != CLOSED;
    assert forall id :: id in manifest && manifest[id].closureState != CLOSED ==> id in r;
    r
  }

  /** The loop over the ids on both sides. */
  method Compare(d: map<string, Surface>, manifest: map<string, Record>) returns (mismatched: set<string>, invalidProof: set<string>)
    ensures forall id :: id in mismatched <==> id in d && id in manifest && !FieldsMatch(d[id], manifest[id])
    ensures forall id :: id in invalidProof <==>
      id in d && id in manifest && FieldsMatch(d[id], manifest[id]) && !ProofHolds(id, d[id], manifest[id])
  {
    hide FieldsMatch;
    hide ProofHolds;
    mismatched, invalidProof := {}, {};
    var both := d.Keys * manifest.Keys;
    var todo := both;
    while todo != {}
      invariant todo <= both
      invariant forall id :: id in mismatched <==> id in both && id !in todo && !FieldsMatch(d[id], manifest[id])
      invariant forall id :: id in invalidProof <==>
        id in both && id !in todo && FieldsMatch(d[id], manifest[id]) && !ProofHolds(id, d[id], manifest[id])
    {
      var id :| id in todo;
      if !FieldsMatch(d[id], manifest[id]) {
        mismatched := mismatched + {id};
      } else if !ProofHolds(id, d[id], manifest[id]) {
        invalidProof := invalidProof + {id};
      }
      todo := todo - {id};
    }
  }

  /** `classify_final_route_authority`, with its sorted lists as sets. */
  method ClassifyFinalRouteAuthority(schema: Schema, surfaces: seq<Surface>, manifest: map<string, Record>) returns (v: Verdict)
    ensures v.closureComplete <==> Closed(schema, surfaces, manifest)
    ensures v.closureComplete ==> v.closed == manifest.Keys
    ensures forall id :: id in v.unplanned <==> id !in manifest && Last(Everything(), surfaces, id).Some?
    ensures forall id :: id in v.stale <==> id in manifest && Last(Everything(), surfaces, id).None?
    ensures forall id :: id in v.mismatched <==>
      && id in manifest && Last(Everything(), surfaces, id).Some? && !FieldsMatch(Last(Everything(), surfaces, id).value, manifest[id])
    ensures forall id :: id in v.pending <==> id in manifest && manifest[id].closureState != CLOSED
    ensures forall id :: id in v.invalidProof <==>
      && id in manifest && Last(Everything(), surfaces, id).Some?
      && FieldsMatch(Last(Everything(), surfaces, id).value, manifest[id]) && !ProofHolds(id, Last(Everything(), surfaces, id).value, manifest[id])
    ensures forall id :: id in v.closed <==> id in manifest && RecordHolds(id, Last(Everything(), surfaces, id), manifest[id])
    ensures v.missingKinds == schema.declared - schema.steps.Keys && v.extraKinds == schema.steps.Keys - schema.declared
    ensures forall k :: k in v.unmappedKinds <==> exists s :: s in surfaces && s.kind == k && k !in schema.steps
    ensures v.manifestComplete <==>
      v.unplanned == v.stale == v.mismatched == {} && v.missingKinds == v.extraKinds == v.unmappedKinds == {}
  {
    hide FieldsMatch;
    hide ProofHolds;
    hide Last;
    hide KindsMapped;
    hide Closed;
    var d := DetectedById(surfaces);
    var unplanned, stale := d.Keys - manifest.Keys, manifest.Keys - d.Keys;
    var pending, unmapped := Pending(manifest), Unmapped(schema, surfaces);
    var mismatched, invalidProof := Compare(d, manifest);
    var missingKinds, extraKinds := schema.declared - schema.steps.Keys, schema.steps.Keys - schema.declared;
    var manifestComplete :=
      unplanned == {} && stale == {} && mismatched == {} && missingKinds == {} && extraKinds == {} && unmapped == {};
    var closureComplete := unplanned == {} && pending == {} && manifestComplete && invalidProof == {};
    v := Verdict(unplanned, stale, pending, mismatched, invalidProof, missingKinds, extraKinds, unmapped,
                 d.Keys * manifest.Keys - pending - mismatched - invalidProof, manifestComplete, closureComplete);
    EmptyDifference(d.Keys, manifest.Keys);
    EmptyDifference(manifest.Keys, d.Keys);
    EmptyDifference(schema.declared, schema.steps.Keys);
    EmptyDifference(schema.steps.Keys, schema.declared);
    VerdictMeans(schema, surfaces, manifest, d, mismatched, invalidProof);
  }

  lemma EmptyDifference(a: set<string>, b: set<string>)
    ensures a - b == {} <==> a <= b
  {
    if a - b == {} {
      forall x | x in a ensures x in b {
        assert x !in a - b;
      }
    }
  }

  /** The code's tests, taken together, say `Closed`. */
  lemma VerdictMeans(schema: Schema, surfaces: seq<Surface>, manifest: map<string, Record>, d: map<string, Surface>,
                     mismatched: set<string>, invalidProof: set<string>)
    requires IsDetected(surfaces, d)
    requires forall id :: id in mismatched <==> id in d && id in manifest && !FieldsMatch(d[id], manifest[id])
    requires forall id :: id in invalidProof <==>
      id in d && id in manifest && FieldsMatch(d[id], manifest[id]) && !ProofHolds(id, d[id], manifest[id])
    ensures Closed(schema, surfaces, manifest) <==>
      && schema.steps.Keys == schema.declared && KindsMapped(schema, surfaces)
      && d.Keys == manifest.Keys && Pending(manifest) == {} && mismatched == {} && invalidProof == {}
  {
    hide FieldsMatch;
    hide ProofHolds;
    hide Last;
    hide KindsMapped;
    if Closed(schema, surfaces, manifest) {
      assert forall id :: id in d ==> RecordHolds(id, Some(d[id]), manifest[id]);
    }
    if d.Keys == manifest.Keys && Pending(manifest) == {} && mismatched == {} && invalidProof == {} {
      forall id | id in manifest ensures RecordHolds(id, Last(Everything(), surfaces, id), manifest[id]) {
        assert id in d && id !in mismatched && id !in invalidProof;
      }
    }
  }

  // ---- The theorems ---------------------------------------------------------------

  /** Every id has the same surface among those of the earlier detection that have a step and among
      those of the later one. */
  ghost predicate SameSurfaces(schema: Schema, before: seq<Surface>, after: seq<Surface>) {
    forall id :: Last(Mapped(schema), before, id) == Last(Everything(), after, id)
  }

  /** Against a manifest built earlier, closure is complete exactly when every kind has a step and
      every id has the same surface, in id, family, kind, location and content hash, as the manifest
      recorded: a surface that appeared, disappeared, moved or changed content breaks it. */
  lemma ClosureDetectsDrift(schema: Schema, before: seq<Surface>, after: seq<Surface>, m: map<string, Record>)
    requires IsManifest(schema, before, m)
    ensures Closed(schema, after, m) <==>
      schema.steps.Keys == schema.declared && KindsMapped(schema, after) && SameSurfaces(schema, before, after)
  {
    forall id ensures Last(Mapped(schema), before, id).Some? ==> Last(Mapped(schema), before, id).value.id == id {
      LastIn(Mapped(schema), before, id);
    }
    forall id ensures Last(Everything(), after, id).Some? ==> Last(Everything(), after, id).value.id == id {
      LastIn(Everything(), after, id);
    }
    if Closed(schema, after, m) {
      forall id ensures Last(Mapped(schema), before, id) == Last(Everything(), after, id) {
        assert id in m <==> Last(Mapped(schema), before, id).Some?;
        assert id in m <==> Last(Everything(), after, id).Some?;
        if id in m {
          assert RecordHolds(id, Last(Everything(), after, id), m[id]);
        }
      }
    } else if schema.steps.Keys == schema.declared && KindsMapped(schema, after)
              && SameSurfaces(schema, before, after) {
      forall id | id in m ensures RecordHolds(id, Last(Everything(), after, id), m[id]) {
        assert Last(Mapped(schema), before, id).Some?;
      }
      forall id ensures id in m <==> Last(Everything(), after, id).Some? {
        assert Last(Mapped(schema), before, id) == Last(Everything(), after, id);
      }
      assert false;
    }
  }

  lemma {:induction false} LastIn(keep: Surface -> bool, xs: seq<Surface>, id: string)
    ensures var r := Last(keep, xs, id); r.Some? ==> r.value in xs && r.value.id == id && keep(r.value)
  {
    if xs != [] && !(xs[|xs| - 1].id == id && keep(xs[|xs| - 1])) {
      LastIn(keep, xs[..|xs| - 1], id);
    }
  }

  lemma {:induction false} LastOfDistinct(keep: Surface -> bool, xs: seq<Surface>, x: Surface)
    requires DistinctIds(xs)
    ensures Last(keep, xs, x.id) == Some(x) <==> x in xs && keep(x)
  {
    if xs != [] {
      var init, y := xs[..|xs| - 1], xs[|xs| - 1];
      assert xs == init + [y];
      if y.id == x.id && keep(y) {
      } else {
        LastOfDistinct(keep, init, x);
      }
    }
  }

  /** For scans, whose ids are distinct: closure is complete exactly when the schema is and the later
      scan found precisely the mapped surfaces of the earlier one. */
  lemma ScansCloseExactlyWhenEqual(schema: Schema, before: seq<Surface>, after: seq<Surface>, m: map<string, Record>)
    requires DistinctIds(before) && DistinctIds(after) && IsManifest(schema, before, m)
    ensures Closed(schema, after, m) <==>
      && schema.steps.Keys == schema.declared
      && (forall x :: x in after <==> x in before && x.kind in schema.steps)
  {
    ClosureDetectsDrift(schema, before, after, m);
    forall x: Surface
      ensures Last(Mapped(schema), before, x.id) == Some(x) <==> x in before && x.kind in schema.steps
      ensures Last(Everything(), after, x.id) == Some(x) <==> x in after
    {
      LastOfDistinct(Mapped(schema), before, x);
      LastOfDistinct(Everything(), after, x);
    }
    if forall x :: x in after <==> x in before && x.kind in schema.steps {
      forall id ensures Last(Mapped(schema), before, id) == Last(Everything(), after, id) {
        LastIn(Mapped(schema), before, id);
        LastIn(Everything(), after, id);
      }
    }
  }

  /** The id is taken from family, kind and location alone, so of two surfaces on one line with one
      kind the scan keeps the first: the second can come, change or go without any scan, manifest or
      verdict showing it. */
  lemma {:induction false} SecondOnTheLineIsUnseen(xs: seq<Surface>, y: Surface, more: seq<Surface>, id: string)
    requires First(xs, y.id).Some?
    ensures First(xs + [y] + more, id) == First(xs + more, id)
    decreases |more|
  {
    if more == [] {
      assert xs + [y] + more == xs + [y] && xs + more == xs;
      FirstSnoc(xs, y, id);
    } else {
      var init, z := more[..|more| - 1], more[|more| - 1];
      assert xs + [y] + more == (xs + [y] + init) + [z] && xs + more == (xs + init) + [z];
      SecondOnTheLineIsUnseen(xs, y, init, id);
      FirstSnoc(xs + [y] + init, z, id);
      FirstSnoc(xs + init, z, id);
    }
  }

  /** The record made for a surface repeats it, is closed by the step of its kind, and forbids every source of
      authority under a reference to that surface and content. */
  lemma RecordMeans(s: Surface, step: string)
    ensures RecordOf(s, step) == Record(
      s.id, s.family, s.kind, s.location, s.hash, "closed", step,
      Some(Proof("evidence/m11-recovery-topology-surfaces.json#surface=" + s.id + "&content_hash=" + s.hash,
                 {"label", "liveness", "wbc_receipt", "rebuildable_projection"}, true)))
  {
  }

  predicate NoAmpersand(s: string) {
    forall i :: 0 <= i < |s| ==> s[i] != '&'
  }

  /** A reference names one surface and one content: ids are hexadecimal, so it can be read back. */
  lemma ReferencesAreUnambiguous(a: string, x: string, b: string, y: string)
    requires NoAmpersand(a) && NoAmpersand(b) && EvidenceRef(a, x) == EvidenceRef(b, y)
    ensures a == b && x == y
  {
    var head := "evidence/m11-recovery-topology-surfaces.json#surface=";
    var u, v := a + "&content_hash=" + x, b + "&content_hash=" + y;
    assert EvidenceRef(a, x) == head + u && EvidenceRef(b, y) == head + v;
    assert (head + u)[|head|..] == u && (head + v)[|head|..] == v;
    assert u[|a|] == '&' && v[|b|] == '&';
    assert u[..|a|] == a && v[..|b|] == b;
    assert forall i :: 0 <= i < |a| ==> u[i] == a[i] != '&';
    assert forall i :: 0 <= i < |b| ==> v[i] == b[i] != '&';
    assert |a| == |b|;
    assert u[|a| + 14..] == x && v[|b| + 14..] == y;
  }

  /** So closure is complete only with a proof, for each surface, that names that surface and content and no
      other, and forbids each of the four sources of authority. */
  lemma ClosedSurfacesAreProven(schema: Schema, surfaces: seq<Surface>, manifest: map<string, Record>, id: string, other: Surface)
    requires Closed(schema, surfaces, manifest) && id in manifest && NoAmpersand(id) && NoAmpersand(other.id)
    ensures Last(Everything(), surfaces, id).Some? && manifest[id].proof.Some?
    ensures forall source :: source in {"label", "liveness", "wbc_receipt", "rebuildable_projection"} ==> source in manifest[id].proof.value.forbids
    ensures manifest[id].proof.value.complete && manifest[id].closureState == "closed"
    ensures manifest[id].proof.value.evidenceRef == EvidenceRef(other.id, other.hash)
            <==> other.id == id && other.hash == Last(Everything(), surfaces, id).value.hash
  {
    assert RecordHolds(id, Last(Everything(), surfaces, id), manifest[id]);
    var s := Last(Everything(), surfaces, id).value;
    hide EvidenceRef;
    if manifest[id].proof.value.evidenceRef == EvidenceRef(other.id, other.hash) {
      ReferencesAreUnambiguous(id, s.hash, other.id, other.hash);
    }
  }
}
