/** The card record shared by the API and the five extraction workers, and
    the collection holding it. */
module Records {
  import opened Options
  import opened ObjectIds

  /** The five extraction fields, one per worker, by their document keys. */
  datatype Field = Name | Lore | MovesFilepath | WeaknessFilepath | ResistanceFilepath

  /** A stored document. A field that is `null` or missing is `None`; any
      other value, `""` and `"UNKNOWN"` included, is a value. */
  datatype Record = Record(
    filename: Option<string>,
    filepath: Option<string>,
    uploaded: bool,
    name: Option<string>,
    lore: Option<string>,
    movesFilepath: Option<string>,
    weaknessFilepath: Option<string>,
    resistanceFilepath: Option<string>)
  {
    function Get(f: Field): Option<string> {
      match f
      case Name => name
      case Lore => lore
      case MovesFilepath => movesFilepath
      case WeaknessFilepath => weaknessFilepath
      case ResistanceFilepath => resistanceFilepath
    }

    /** A `{"$set": {f: v}}` update: the one field changes, nothing else. */
    function With(f: Field, v: Option<string>): (r: Record)
      ensures r.Get(f) == v
      ensures forall g :: g != f ==> r.Get(g) == Get(g)
      ensures r.filename == filename && r.filepath == filepath && r.uploaded == uploaded
    {
      match f
      case Name => this.(name := v)
      case Lore => this.(lore := v)
      case MovesFilepath => this.(movesFilepath := v)
      case WeaknessFilepath => this.(weaknessFilepath := v)
      case ResistanceFilepath => this.(resistanceFilepath := v)
    }

    /** The `{f: None}` query filter. */
    predicate Pending(f: Field) {
      Get(f).None?
    }
  }

  type Store = map<ObjectId, Record>

  /** A record is determined by its source fields and its five extraction fields. */
  lemma RecordExtensional(r: Record, r': Record)
    requires r.filename == r'.filename && r.filepath == r'.filepath && r.uploaded == r'.uploaded
    requires forall f :: r.Get(f) == r'.Get(f)
    ensures r == r'
  {
    assert r.Get(Name) == r'.Get(Name);
    assert r.Get(Lore) == r'.Get(Lore);
    assert r.Get(MovesFilepath) == r'.Get(MovesFilepath);
    assert r.Get(WeaknessFilepath) == r'.Get(WeaknessFilepath);
    assert r.Get(ResistanceFilepath) == r'.Get(ResistanceFilepath);
  }

  /** Updates of two different fields can be applied in either order. */
  lemma WithCommutes(r: Record, f: Field, v: Option<string>, g: Field, u: Option<string>)
    requires f != g
    ensures r.With(f, v).With(g, u) == r.With(g, u).With(f, v)
  {
    RecordExtensional(r.With(f, v).With(g, u), r.With(g, u).With(f, v));
  }
}
