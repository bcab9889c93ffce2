/** The extraction step shared by the moves, weakness and resistance
    workers: crop the source image, save the crop under a path derived from
    the record id, and commit that path. The three differ only in data. */
module ImageCrop {
  import opened Options
  import opened ObjectIds
  import opened Paths
  import opened Records
  import opened Outcomes

  /** The card regions stored as images. */
  datatype Region = Moves | Weakness | Resistance

  /** The record field a region's path is written to. */
  function FieldOf(region: Region): Field {
    match region
    case Moves => MovesFilepath
    case Weakness => WeaknessFilepath
    case Resistance => ResistanceFilepath
  }

  /** Everything that distinguishes one image worker from another. */
  datatype PersistSpec = PersistSpec(region: Region, dir: string, box: CropBox)

  /** The environment overrides a worker reads, once parsed: an output
      directory and a crop box. */
  datatype Settings = Settings(dir: Option<string>, box: Option<CropBox>)

  const MovesDefaultDir: string := "moves"
  const MovesDefaultBox: CropBox := CropBox(50, 400, 500, 600)
  const WeaknessDefaultDir: string := "weaknesses"
  const WeaknessBox: CropBox := CropBox(33, 882, 206, 911)
  const ResistanceDefaultDir: string := "resistances"
  const ResistanceDefaultBox: CropBox := CropBox(126, 33, 546, 93)

  function MovesSpec(cfg: Settings): PersistSpec {
    PersistSpec(Moves, cfg.dir.GetOr(MovesDefaultDir), cfg.box.GetOr(MovesDefaultBox))
  }

  /** The weakness worker takes its directory from the environment but its
      crop box is a constant. */
  function WeaknessSpec(cfg: Settings): PersistSpec {
    PersistSpec(Weakness, cfg.dir.GetOr(WeaknessDefaultDir), WeaknessBox)
  }

  function ResistanceSpec(cfg: Settings): PersistSpec {
    PersistSpec(Resistance, cfg.dir.GetOr(ResistanceDefaultDir), cfg.box.GetOr(ResistanceDefaultBox))
  }

  /** `os.path.join(dir, f"{record_id}.png")`: a file named after the record,
      inside `dir`. */
  function OutputPath(dir: string, id: ObjectId): (p: string)
    ensures p == DirPrefix(dir) + Str(id) + ".png"
  {
    var name := Str(id) + ".png";
    assert !IsAbsolute(name) by { assert name[0] == Str(id)[0]; }
    Join(dir, name)
  }

  /** Distinct records never share an output file. */
  lemma OutputPathInjective(dir: string, a: ObjectId, b: ObjectId)
    requires OutputPath(dir, a) == OutputPath(dir, b)
    ensures a == b
  {
    var p := DirPrefix(dir);
    var na := Str(a) + ".png";
    var nb := Str(b) + ".png";
    assert p + na == p + Str(a) + ".png";
    assert p + nb == p + Str(b) + ".png";
    assert na == (p + na)[|p|..];
    assert nb == (p + nb)[|p|..];
    assert Str(a) == na[..24] && Str(b) == nb[..24];
    StrInjective(a, b);
  }

  /** One record: a missing source, a failed crop or a failed save skips it
      (a save whose log line then raises counts as failed); otherwise the
      path just saved to is committed. */
  function Decide(spec: PersistSpec, id: ObjectId, filepath: Option<string>, a: Attempt): (d: Decision)
    ensures d.Commit? <==> SourceReadable(filepath, a) && a.cropped && a.saved
    ensures d.Commit? ==> d.value == OutputPath(spec.dir, id)
    ensures d.Skip? ==> (d.failure ==
      (if !SourceReadable(filepath, a) then SourceUnavailable
       else if !a.cropped then CropFailed
       else SaveFailed))
  {
    if !SourceReadable(filepath, a) then Skip(SourceUnavailable)
    else
      var output := OutputPath(spec.dir, id);
      if !a.cropped then Skip(CropFailed)
      else if !a.saved then Skip(SaveFailed)
      else Commit(output)
  }

  /** The committed path depends on the record id alone: a retry of the same
      record commits (and has overwritten) the same file, whatever the
      outcomes; a different record commits a different file. */
  lemma CommittedPathIsPerRecord(spec: PersistSpec, id1: ObjectId, fp1: Option<string>, a1: Attempt,
                                 id2: ObjectId, fp2: Option<string>, a2: Attempt)
    requires Decide(spec, id1, fp1, a1).Commit? && Decide(spec, id2, fp2, a2).Commit?
    ensures Decide(spec, id1, fp1, a1).value == Decide(spec, id2, fp2, a2).value <==> id1 == id2
  {
    if Decide(spec, id1, fp1, a1).value == Decide(spec, id2, fp2, a2).value {
      OutputPathInjective(spec.dir, id1, id2);
    }
  }

  /** The three instances with no overrides: the documented directories and
      boxes, three different fields, and crops of positive size. */
  lemma DefaultSpecs()
    ensures MovesSpec(Settings(None, None)) == PersistSpec(Moves, "moves", CropBox(50, 400, 500, 600))
    ensures WeaknessSpec(Settings(None, None)) == PersistSpec(Weakness, "weaknesses", CropBox(33, 882, 206, 911))
    ensures ResistanceSpec(Settings(None, None)) == PersistSpec(Resistance, "resistances", CropBox(126, 33, 546, 93))
    ensures forall r1: Region, r2: Region :: r1 != r2 ==> FieldOf(r1) != FieldOf(r2)
    ensures forall b :: b in {MovesDefaultBox, WeaknessBox, ResistanceDefaultBox} ==> b.Width() > 0 && b.Height() > 0
  {
  }

  /** No setting changes the weakness crop box. */
  lemma WeaknessBoxFixed(cfg: Settings)
    ensures WeaknessSpec(cfg).box == CropBox(33, 882, 206, 911)
    ensures WeaknessSpec(cfg).box.Width() == 173 && WeaknessSpec(cfg).box.Height() == 29
  {
  }
}
