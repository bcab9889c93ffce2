/** The five workers' `process_image` and one iteration of their `main` loop,
    over the store as a map. Each worker owns one field; a cycle scans the
    collection, hands every record whose field is still `None` to
    `process_image`, and may be cut short by a query or cursor failure. */
module Workers {
  import opened Options
  import opened ObjectIds
  import opened Records
  import opened Outcomes
  import Text
  import NameOcr
  import LoreOcr
  import ImageCrop

  datatype Worker =
    | NameWorker
    | LoreWorker
    | ImageWorker(spec: ImageCrop.PersistSpec)

  /** The field a worker selects on and writes to. */
  function Owner(w: Worker): Field {
    match w
    case NameWorker => Name
    case LoreWorker => Lore
    case ImageWorker(spec) => ImageCrop.FieldOf(spec.region)
  }

  /** The worker's extraction step for one record. */
  function Decide(w: Worker, id: ObjectId, filepath: Option<string>, a: Attempt): Decision {
    match w
    case NameWorker => NameOcr.Decide(filepath, a)
    case LoreWorker => LoreOcr.Decide(filepath, a)
    case ImageWorker(spec) => ImageCrop.Decide(spec, id, filepath, a)
  }

  /** Whether the store write of this attempt happens and takes effect. */
  predicate Writes(w: Worker, id: ObjectId, r: Record, a: Attempt) {
    Decide(w, id, r.filepath, a).Commit? && a.updated
  }

  /** `process_image` on one record: the owned field takes the committed
      value if extraction succeeded and the `$set` took effect; otherwise
      the record is as it was. No other part of the record is touched. */
  function Apply(w: Worker, id: ObjectId, r: Record, a: Attempt): (r': Record)
    ensures forall g :: g != Owner(w) ==> r'.Get(g) == r.Get(g)
    ensures r'.filename == r.filename && r'.filepath == r.filepath && r'.uploaded == r.uploaded
    ensures Writes(w, id, r, a) ==> r'.Get(Owner(w)) == Some(Decide(w, id, r.filepath, a).value)
    ensures Writes(w, id, r, a) ==> r' == r.With(Owner(w), Some(Decide(w, id, r.filepath, a).value))
    ensures !Writes(w, id, r, a) ==> r' == r
  {
    match Decide(w, id, r.filepath, a)
    case Skip(_) => r
    case Commit(v) => if a.updated then r.With(Owner(w), Some(v)) else r
  }

  /** `process_image` against the store: `update_one` by id, which matches
      nothing once the record is gone. */
  function Process(w: Worker, s: Store, id: ObjectId, a: Attempt): (s': Store)
    ensures s'.Keys == s.Keys
    ensures forall x :: x in s && x != id ==> s'[x] == s[x]
    ensures id in s ==> s'[id] == Apply(w, id, s[id], a)
  {
    if id in s then s[id := Apply(w, id, s[id], a)] else s
  }

  /** The query filter `{field: None}`. */
  predicate Candidate(s: Store, f: Field, id: ObjectId) {
    id in s && s[id].Pending(f)
  }

  /** The part of the scan reached before the cursor raised, if it did. */
  function Reached(scan: seq<ObjectId>, failAfter: Option<nat>): (ids: seq<ObjectId>)
    ensures |ids| <= |scan| && ids == scan[..|ids|]
    ensures failAfter.None? ==> ids == scan
  {
    match failAfter
    case None => scan
    case Some(k) => if k < |scan| then scan[..k] else scan
  }

  function Elems(ids: seq<ObjectId>): set<ObjectId> {
    set x | x in ids
  }

  /** The cursor walks `ids`; a document is yielded when it still matches
      the filter as the scan reaches it, and is processed straight away. */
  function Run(w: Worker, s: Store, ids: seq<ObjectId>, env: ObjectId -> Attempt): Store
    decreases |ids|
  {
    if |ids| == 0 then s
    else
      var x := ids[0];
      var s1 := if Candidate(s, Owner(w), x) then Process(w, s, x, env(x)) else s;
      Run(w, s1, ids[1..], env)
  }

  /** What a cycle does to one record: `process_image` if the scan reached
      it while its field was `None`, nothing otherwise. */
  function Visit(w: Worker, id: ObjectId, r: Record, reached: bool, a: Attempt): Record {
    if reached && r.Pending(Owner(w)) then Apply(w, id, r, a) else r
  }

  /** The cycle's effect stated record by record: every record the scan
      reached while its field was `None` is handled on its own, with its own
      attempt, and no other record changes. */
  function Handled(w: Worker, s: Store, reached: set<ObjectId>, env: ObjectId -> Attempt): Store {
    map id | id in s :: Visit(w, id, s[id], id in reached, env(id))
  }

  /** Running the scan in order has the record-by-record effect, whatever the
      order. A record listed more than once is handed its one attempt again,
      which changes nothing once the first visit has written. */
  lemma {:induction false} RunIsHandled(w: Worker, s: Store, ids: seq<ObjectId>, env: ObjectId -> Attempt)
    ensures Run(w, s, ids, env) == Handled(w, s, Elems(ids), env)
    decreases |ids|
  {
    var f := Owner(w);
    if |ids| == 0 {
      assert Handled(w, s, {}, env) == s;
    } else {
      var x := ids[0];
      var rest := ids[1..];
      var s1 := if Candidate(s, f, x) then Process(w, s, x, env(x)) else s;
      RunIsHandled(w, s1, rest, env);
      assert Elems(ids) == {x} + Elems(rest) by {
        assert forall y :: y in ids <==> y == x || y in rest;
      }
      var lhs := Handled(w, s1, Elems(rest), env);
      var rhs := Handled(w, s, Elems(ids), env);
      assert lhs.Keys == rhs.Keys;
      forall id | id in s ensures lhs[id] == rhs[id] {
        if id == x && Candidate(s, f, x) {
          var r1 := Apply(w, x, s[x], env(x));
          assert s1[x] == r1;
          if r1.Pending(f) {
            assert r1 == s[x];
          }
        }
      }
    }
  }

  /** One pass of the `while True` body: query, then `process_image` for each
      record yielded until the scan ends or the cursor raises. */
  function Cycle(w: Worker, s: Store, scan: seq<ObjectId>, failAfter: Option<nat>, env: ObjectId -> Attempt): (s': Store)
    ensures s'.Keys == s.Keys
    ensures forall id :: id in s ==> s'[id] == Visit(w, id, s[id], id in Reached(scan, failAfter), env(id))
  {
    RunIsHandled(w, s, Reached(scan, failAfter), env);
    Run(w, s, Reached(scan, failAfter), env)
  }

  /** A cycle writes only its own field: every key stays, and the source
      path, the file name, the upload flag and the other four fields of
      every record are as they were. */
  lemma CycleFrame(w: Worker, s: Store, scan: seq<ObjectId>, failAfter: Option<nat>, env: ObjectId -> Attempt)
    ensures Cycle(w, s, scan, failAfter, env).Keys == s.Keys
    ensures forall id :: id in s ==> Cycle(w, s, scan, failAfter, env)[id].filepath == s[id].filepath
    ensures forall id, g :: id in s && g != Owner(w) ==> Cycle(w, s, scan, failAfter, env)[id].Get(g) == s[id].Get(g)
  {
  }

  /** A field that holds a value, any value, is never selected or rewritten. */
  lemma CycleMonotone(w: Worker, s: Store, scan: seq<ObjectId>, failAfter: Option<nat>, env: ObjectId -> Attempt, id: ObjectId)
    requires id in s && !s[id].Pending(Owner(w))
    ensures Cycle(w, s, scan, failAfter, env)[id] == s[id]
  {
  }

  /** A query that fails before yielding anything leaves the store as it was;
      the loop simply goes on to its next cycle. */
  lemma FailedQueryIsIdle(w: Worker, s: Store, scan: seq<ObjectId>, env: ObjectId -> Attempt)
    ensures Cycle(w, s, scan, Some(0), env) == s
  {
    var s' := Cycle(w, s, scan, Some(0), env);
    assert forall id :: id in s ==> s'[id] == s[id];
  }

  /** What happens to a record in a cycle depends on that record and its own
      attempt only: a failure on any other record, whichever way it fails,
      changes nothing for it. */
  lemma CycleIsolation(w: Worker, s: Store, scan: seq<ObjectId>, failAfter: Option<nat>,
                       env1: ObjectId -> Attempt, env2: ObjectId -> Attempt, id: ObjectId)
    requires id in s && env1(id) == env2(id)
    ensures Cycle(w, s, scan, failAfter, env1)[id] == Cycle(w, s, scan, failAfter, env2)[id]
  {
  }

  /** A pending record that the scan reaches and whose own attempt succeeds
      is Done after the cycle, regardless of every other record. */
  lemma ReachedSuccessIsDone(w: Worker, s: Store, scan: seq<ObjectId>, failAfter: Option<nat>,
                             env: ObjectId -> Attempt, id: ObjectId)
    requires Candidate(s, Owner(w), id) && id in Reached(scan, failAfter)
    requires Writes(w, id, s[id], env(id))
    ensures Cycle(w, s, scan, failAfter, env)[id].Get(Owner(w)) == Some(Decide(w, id, s[id].filepath, env(id)).value)
  {
  }

  /** `process_image` of two workers that own different fields, on one
      record, in either order. */
  lemma ApplyCommutes(w1: Worker, a1: Attempt, w2: Worker, a2: Attempt, id: ObjectId, r: Record)
    requires Owner(w1) != Owner(w2)
    ensures Apply(w1, id, Apply(w2, id, r, a2), a1) == Apply(w2, id, Apply(w1, id, r, a1), a2)
  {
    var r1 := Apply(w1, id, r, a1);
    var r2 := Apply(w2, id, r, a2);
    assert Writes(w1, id, r2, a1) == Writes(w1, id, r, a1);
    assert Writes(w2, id, r1, a2) == Writes(w2, id, r, a2);
    if Writes(w1, id, r, a1) && Writes(w2, id, r, a2) {
      WithCommutes(r, Owner(w1), Some(Decide(w1, id, r.filepath, a1).value),
                      Owner(w2), Some(Decide(w2, id, r.filepath, a2).value));
    }
  }

  lemma VisitCommutes(w1: Worker, b1: bool, a1: Attempt, w2: Worker, b2: bool, a2: Attempt, id: ObjectId, r: Record)
    requires Owner(w1) != Owner(w2)
    ensures Visit(w1, id, Visit(w2, id, r, b2, a2), b1, a1) == Visit(w2, id, Visit(w1, id, r, b1, a1), b2, a2)
  {
    var go1 := b1 && r.Pending(Owner(w1));
    var go2 := b2 && r.Pending(Owner(w2));
    var v1 := Visit(w1, id, r, b1, a1);
    var v2 := Visit(w2, id, r, b2, a2);
    assert v1 == if go1 then Apply(w1, id, r, a1) else r;
    assert v2 == if go2 then Apply(w2, id, r, a2) else r;
    assert v2.Get(Owner(w1)) == r.Get(Owner(w1));
    assert v1.Get(Owner(w2)) == r.Get(Owner(w2));
    assert Visit(w1, id, v2, b1, a1) == if go1 then Apply(w1, id, v2, a1) else v2;
    assert Visit(w2, id, v1, b2, a2) == if go2 then Apply(w2, id, v1, a2) else v1;
    if go1 && go2 {
      ApplyCommutes(w1, a1, w2, a2, id, r);
    }
  }

  /** Cycles of workers that own different fields commute. */
  lemma CyclesCommute(w1: Worker, scan1: seq<ObjectId>, fail1: Option<nat>, env1: ObjectId -> Attempt,
                      w2: Worker, scan2: seq<ObjectId>, fail2: Option<nat>, env2: ObjectId -> Attempt,
                      s: Store)
    requires Owner(w1) != Owner(w2)
    ensures Cycle(w1, Cycle(w2, s, scan2, fail2, env2), scan1, fail1, env1)
         == Cycle(w2, Cycle(w1, s, scan1, fail1, env1), scan2, fail2, env2)
  {
    var s1 := Cycle(w1, s, scan1, fail1, env1);
    var s2 := Cycle(w2, s, scan2, fail2, env2);
    var a := Cycle(w1, s2, scan1, fail1, env1);
    var b := Cycle(w2, s1, scan2, fail2, env2);
    forall id | id in s ensures a[id] == b[id] {
      VisitCommutes(w1, id in Reached(scan1, fail1), env1(id), w2, id in Reached(scan2, fail2), env2(id), id, s[id]);
    }
  }

  /** The listing a snapshot query would give: the reached ids that match
      the filter when the cycle starts, in scan order. */
  function Snapshot(s: Store, f: Field, ids: seq<ObjectId>): (c: seq<ObjectId>)
    ensures forall x :: x in c <==> x in ids && Candidate(s, f, x)
  {
    if |ids| == 0 then []
    else (if Candidate(s, f, ids[0]) then [ids[0]] else []) + Snapshot(s, f, ids[1..])
  }

  predicate Distinct(ids: seq<ObjectId>) {
    forall i, j :: 0 <= i < j < |ids| ==> ids[i] != ids[j]
  }

  /** `process_image` applied to each id in turn, without looking at the filter. */
  function FoldProcess(w: Worker, s: Store, ids: seq<ObjectId>, env: ObjectId -> Attempt): Store
    decreases |ids|
  {
    if |ids| == 0 then s else FoldProcess(w, Process(w, s, ids[0], env(ids[0])), ids[1..], env)
  }

  lemma {:induction false} SnapshotDistinct(s: Store, f: Field, ids: seq<ObjectId>)
    requires Distinct(ids)
    ensures Distinct(Snapshot(s, f, ids))
    decreases |ids|
  {
    if |ids| > 0 {
      SnapshotDistinct(s, f, ids[1..]);
    }
  }

  /** When every id is a distinct candidate, checking the filter as the
      scan goes changes nothing: each id is still pending when reached. */
  lemma {:induction false} FoldProcessIsRun(w: Worker, s: Store, ids: seq<ObjectId>, env: ObjectId -> Attempt)
    requires Distinct(ids)
    requires forall x :: x in ids ==> Candidate(s, Owner(w), x)
    ensures FoldProcess(w, s, ids, env) == Run(w, s, ids, env)
    decreases |ids|
  {
    if |ids| > 0 {
      var x := ids[0];
      var rest := ids[1..];
      var s1 := Process(w, s, x, env(x));
      assert forall j :: 0 <= j < |rest| ==> rest[j] == ids[j + 1];
      assert forall y :: y in rest ==> y != x && y in ids;
      assert forall y :: y in rest ==> s1[y] == s[y];
      FoldProcessIsRun(w, s1, rest, env);
    }
  }

  /** The record-by-record effect depends on the reached set only through
      the records that are pending. */
  lemma HandledCongruent(w: Worker, s: Store, d1: set<ObjectId>, d2: set<ObjectId>, env: ObjectId -> Attempt)
    requires forall id :: id in s && s[id].Pending(Owner(w)) ==> (id in d1 <==> id in d2)
    ensures Handled(w, s, d1, env) == Handled(w, s, d2, env)
  {
    var a := Handled(w, s, d1, env);
    var b := Handled(w, s, d2, env);
    forall id | id in s ensures a[id] == b[id] {
      assert a[id] == Visit(w, id, s[id], id in d1, env(id));
      assert b[id] == Visit(w, id, s[id], id in d2, env(id));
    }
  }

  /** For a scan that lists each record once, the cycle is the fold of
      `process_image` over the records that were pending when it started. */
  lemma CycleIsSnapshotFold(w: Worker, s: Store, scan: seq<ObjectId>, failAfter: Option<nat>, env: ObjectId -> Attempt)
    requires Distinct(scan)
    ensures Cycle(w, s, scan, failAfter, env)
         == FoldProcess(w, s, Snapshot(s, Owner(w), Reached(scan, failAfter)), env)
  {
    var ids := Reached(scan, failAfter);
    var c := Snapshot(s, Owner(w), ids);
    assert Distinct(ids);
    SnapshotDistinct(s, Owner(w), ids);
    FoldProcessIsRun(w, s, c, env);
    RunIsHandled(w, s, c, env);
    RunIsHandled(w, s, ids, env);
    HandledCongruent(w, s, Elems(ids), Elems(c), env);
  }

  /** The two text workers part ways exactly where text is missing: on
      blank OCR output the name worker commits "UNKNOWN" and the lore worker
      commits ""; on an OCR engine error the name worker still commits
      "UNKNOWN" while the lore worker skips the record for a retry. */
  lemma TextPoliciesDiffer(id: ObjectId, r: Record, a: Attempt)
    requires SourceReadable(r.filepath, a) && a.cropped && a.updated
    requires a.ocr.EngineError? || Text.AllSpace(a.ocr.text)
    ensures Apply(NameWorker, id, r, a).name == Some(NameOcr.Unknown)
    ensures a.ocr.Recognized? ==> Apply(LoreWorker, id, r, a).lore == Some("")
    ensures a.ocr.EngineError? ==> Apply(LoreWorker, id, r, a) == r
  {
  }
}
