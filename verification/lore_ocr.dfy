/** The lore worker's extraction step: open, crop and OCR inside one
    exception handler, and the stripped text committed as it is. */
module LoreOcr {
  import opened Options
  import opened Text
  import opened Outcomes

  /** The crop box used when `LORE_CROP_BOX` is not set. */
  const DefaultBox: CropBox := CropBox(228, 923, 699, 1016)

  /** The crop box the worker starts with: `LORE_CROP_BOX` once parsed, or
      the default when it is unset. */
  function BoxSetting(setting: Option<CropBox>): CropBox {
    setting.GetOr(DefaultBox)
  }

  /** Without an override the lore region is the 471 by 93 pixel box at
      (228, 923); an override is taken as it is. */
  lemma DefaultBoxShape()
    ensures BoxSetting(None) == CropBox(228, 923, 699, 1016)
    ensures BoxSetting(None).Width() == 471 && BoxSetting(None).Height() == 93
    ensures forall b :: BoxSetting(Some(b)) == b
  {
  }

  /** One record: any failure before the text is in hand and logged skips it
      (a raising log line is an engine error); otherwise
      the stripped text is committed, even when it is empty. */
  function Decide(filepath: Option<string>, a: Attempt): (d: Decision)
    ensures d.Commit? <==> SourceReadable(filepath, a) && a.cropped && a.ocr.Recognized?
    ensures d.Commit? ==> Trimmed(d.value) && StrippedFrom(a.ocr.text, d.value)
    ensures d.Commit? ==> (d.value == "" <==> AllSpace(a.ocr.text))
    ensures d.Skip? ==> (d.failure ==
      (if !SourceReadable(filepath, a) then SourceUnavailable
       else if !a.cropped then CropFailed
       else RecognitionFailed))
  {
    if !SourceReadable(filepath, a) then Skip(SourceUnavailable)
    else if !a.cropped then Skip(CropFailed)
    else
      match a.ocr
      case EngineError => Skip(RecognitionFailed)
      case Recognized(raw) =>
        StripEmptyIff(raw);
        Commit(Strip(raw))
  }
}
