/** A worker's `main`: the unbounded `while True` loop, cut to a finite
    number of cycles. Each cycle brings its own scan order, its own point of
    query failure (if any) and its own per-record I/O outcomes; the sleep
    between cycles has no effect on the store. */
module Service {
  import opened Options
  import opened ObjectIds
  import opened Records
  import opened Outcomes
  import opened Workers
  import Text
  import NameOcr
  import ImageCrop

  datatype Round = Round(scan: seq<ObjectId>, failAfter: Option<nat>, env: ObjectId -> Attempt)

  function CycleOf(w: Worker, s: Store, round: Round): Store {
    Cycle(w, s, round.scan, round.failAfter, round.env)
  }

  /** Successive cycles of one worker. Across any number of them the worker
      keeps every key and every part of every record it does not own, and a
      field that holds a value keeps it. */
  function Serve(w: Worker, s: Store, rounds: seq<Round>): (s': Store)
    ensures s'.Keys == s.Keys
    ensures forall id :: id in s ==> s'[id].filename == s[id].filename && s'[id].filepath == s[id].filepath && s'[id].uploaded == s[id].uploaded
    ensures forall id, g :: id in s && g != Owner(w) ==> s'[id].Get(g) == s[id].Get(g)
    ensures forall id :: id in s && !s[id].Pending(Owner(w)) ==> s'[id] == s[id]
    decreases |rounds|
  {
    if |rounds| == 0 then s
    else
      var s1 := CycleOf(w, s, rounds[0]);
      CycleFrame(w, s, rounds[0].scan, rounds[0].failAfter, rounds[0].env);
      Serve(w, s1, rounds[1..])
  }

  /** Whatever a cycle did, failed query included, the loop continues: the
      cycles after it run from the store it left. */
  lemma {:induction false} ServeSplit(w: Worker, s: Store, first: seq<Round>, later: seq<Round>)
    ensures Serve(w, s, first + later) == Serve(w, Serve(w, s, first), later)
    decreases |first|
  {
    if |first| == 0 {
      assert first + later == later;
    } else {
      assert (first + later)[1..] == first[1..] + later;
      ServeSplit(w, CycleOf(w, s, first[0]), first[1..], later);
    }
  }

  /** With no readable source, no worker ever writes. */
  lemma UnreadableSkips(w: Worker, id: ObjectId, r: Record, a: Attempt)
    requires !SourceReadable(r.filepath, a)
    ensures Apply(w, id, r, a) == r
  {
  }

  /** A record whose source cannot be read in any cycle stays as it is, its
      field `None`, through every cycle. */
  lemma {:induction false} UnreadableStaysPending(w: Worker, s: Store, rounds: seq<Round>, id: ObjectId)
    requires id in s
    requires forall k :: 0 <= k < |rounds| ==> !SourceReadable(s[id].filepath, rounds[k].env(id))
    ensures Serve(w, s, rounds)[id] == s[id]
    decreases |rounds|
  {
    if |rounds| > 0 {
      var s1 := CycleOf(w, s, rounds[0]);
      UnreadableSkips(w, id, s[id], rounds[0].env(id));
      assert s1[id] == s[id];
      assert forall k :: 0 <= k < |rounds[1..]| ==> rounds[1..][k] == rounds[k + 1];
      UnreadableStaysPending(w, s1, rounds[1..], id);
    }
  }

  /** A missing or empty `filepath` in particular: the record is skipped
      forever and reselected every cycle. */
  lemma NoSourcePathStaysPending(w: Worker, s: Store, rounds: seq<Round>, id: ObjectId)
    requires id in s && (s[id].filepath == None || s[id].filepath == Some(""))
    ensures Serve(w, s, rounds)[id] == s[id]
  {
    UnreadableStaysPending(w, s, rounds, id);
  }

  /** A name that could not be read is committed as "UNKNOWN" in the first
      cycle that gets past the crop and the update, and stays so through
      every later cycle. */
  lemma NameSentinelIsTerminal(s: Store, first: Round, later: seq<Round>, id: ObjectId)
    requires Candidate(s, Name, id) && id in Reached(first.scan, first.failAfter)
    requires SourceReadable(s[id].filepath, first.env(id)) && first.env(id).cropped && first.env(id).updated
    requires first.env(id).ocr.EngineError? || Text.AllSpace(first.env(id).ocr.text)
    ensures Serve(NameWorker, s, [first] + later)[id].name == Some(NameOcr.Unknown)
  {
    var w := NameWorker;
    var s1 := CycleOf(w, s, first);
    assert s1[id].name == Some(NameOcr.Unknown);
    assert ([first] + later)[1..] == later;
  }

  /** Lore read as blank is committed as "" and, being a value, is never
      selected again. */
  lemma BlankLoreIsTerminal(s: Store, first: Round, later: seq<Round>, id: ObjectId)
    requires Candidate(s, Lore, id) && id in Reached(first.scan, first.failAfter)
    requires SourceReadable(s[id].filepath, first.env(id)) && first.env(id).cropped && first.env(id).updated
    requires first.env(id).ocr.Recognized? && Text.AllSpace(first.env(id).ocr.text)
    ensures Serve(LoreWorker, s, [first] + later)[id].lore == Some("")
  {
    var w := LoreWorker;
    var s1 := CycleOf(w, s, first);
    assert s1[id].lore == Some("");
    assert ([first] + later)[1..] == later;
  }

  /** An image that was saved but whose `$set` did not take effect leaves the field
      `None`; the next successful cycle commits the very path saved before. */
  lemma SavedButNotRecordedIsRetried(spec: ImageCrop.PersistSpec, s: Store, first: Round, second: Round, id: ObjectId)
    requires Candidate(s, ImageCrop.FieldOf(spec.region), id)
    requires id in Reached(first.scan, first.failAfter) && id in Reached(second.scan, second.failAfter)
    requires SourceReadable(s[id].filepath, first.env(id)) && first.env(id).cropped && first.env(id).saved
    requires !first.env(id).updated
    requires SourceReadable(s[id].filepath, second.env(id)) && second.env(id).cropped && second.env(id).saved
    requires second.env(id).updated
    ensures CycleOf(ImageWorker(spec), s, first)[id] == s[id]
    ensures Serve(ImageWorker(spec), s, [first, second])[id].Get(ImageCrop.FieldOf(spec.region))
         == Some(ImageCrop.OutputPath(spec.dir, id))
  {
    var w := ImageWorker(spec);
    var s1 := CycleOf(w, s, first);
    assert s1[id] == s[id];
    var s2 := CycleOf(w, s1, second);
    assert s2[id].Get(Owner(w)) == Some(ImageCrop.OutputPath(spec.dir, id));
    assert [first, second][1..] == [second];
    assert Serve(w, s, [first, second]) == Serve(w, s1, [second]);
    assert Serve(w, s1, [second]) == Serve(w, s2, []);
  }
}
