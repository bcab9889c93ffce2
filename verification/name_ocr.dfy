/** The name worker's extraction step: crop, OCR, strip, and the "UNKNOWN"
    sentinel, committed both for blank text and for an OCR engine error. */
module NameOcr {
  import opened Options
  import opened Text
  import opened Outcomes

  /** The placeholder committed when no name could be read. */
  const Unknown: string := "UNKNOWN"

  /** The name committed for an OCR outcome: the stripped text when it has
      any non-whitespace, the sentinel otherwise, engine errors included. */
  function NameText(ocr: OcrResult): (t: string)
    ensures t != "" && Trimmed(t)
    ensures ocr.Recognized? && !AllSpace(ocr.text) ==> StrippedFrom(ocr.text, t)
    ensures ocr.EngineError? || AllSpace(ocr.text) ==> t == Unknown
  {
    match ocr
    case EngineError => Unknown
    case Recognized(raw) =>
      StripEmptyIff(raw);
      var t := Strip(raw);
      if t == "" then Unknown else t
  }

  /** One record: a missing or non-existent source, or a failed open/crop,
      skips it; once the crop succeeds a non-empty value is always committed. */
  function Decide(filepath: Option<string>, a: Attempt): (d: Decision)
    ensures d.Skip? <==> !SourceReadable(filepath, a) || !a.cropped
    ensures d.Skip? ==> d.failure == (if SourceReadable(filepath, a) then CropFailed else SourceUnavailable)
    ensures d.Commit? ==> d.value != "" && Trimmed(d.value)
    ensures d.Commit? && a.ocr.Recognized? && !AllSpace(a.ocr.text) ==> StrippedFrom(a.ocr.text, d.value)
    ensures d.Commit? && (a.ocr.EngineError? || AllSpace(a.ocr.text)) ==> d.value == Unknown
  {
    if !SourceReadable(filepath, a) then Skip(SourceUnavailable)
    else if !a.cropped then Skip(CropFailed)
    else Commit(NameText(a.ocr))
  }
}
