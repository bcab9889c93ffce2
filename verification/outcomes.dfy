/** What the workers cannot compute themselves: the file system, PIL and the
    OCR engine, and the store's acknowledgement of a write, each reduced to
    the outcome the worker's code branches on. */
module Outcomes {
  import opened Options

  /** A crop region (left, top, right, bottom) in source-image pixels. */
  datatype CropBox = CropBox(left: int, top: int, right: int, bottom: int) {
    /** The size of the cropped sub-image. */
    function Width(): int { right - left }
    function Height(): int { bottom - top }
  }

  /** The OCR step: the raw text `pytesseract.image_to_string` returned, or
      an exception from it or from anything after it in the same `try` block
      (for the lore worker, the `print` of the extracted text). */
  datatype OcrResult = Recognized(text: string) | EngineError

  /** Everything that happens outside the worker while it handles one record:
      whether the source path exists; whether open+crop succeeded; what OCR
      returned, `EngineError` if the rest of its `try` block raised; whether
      the save and the `print` after it in the same `try` block completed
      without raising; and whether the `$set` took effect in the store,
      whatever `update_one` then raised. Each worker reads only the parts its
      code uses. */
  datatype Attempt = Attempt(
    pathExists: bool,
    cropped: bool,
    ocr: OcrResult,
    saved: bool,
    updated: bool)

  /** Why a record was skipped. */
  datatype Failure = SourceUnavailable | CropFailed | RecognitionFailed | SaveFailed

  /** What a worker's extraction step decided before the store write: skip
      the record, or write `value` to the worker's field. */
  datatype Decision = Skip(failure: Failure) | Commit(value: string)

  /** `if not image_path or not os.path.exists(image_path)` fails: the path is
      missing, `None`, empty, or names nothing. */
  predicate SourceReadable(filepath: Option<string>, a: Attempt) {
    filepath.Some? && filepath.value != "" && a.pathExists
  }
}
