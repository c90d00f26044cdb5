/**
 * `TableParameters` (pixeltable/metadata/schema.py:78-93): a table's version
 * retention and the columns of its frame extraction, with defaults, and a
 * `reset` that clears the frame-extraction settings in place.
 */
module Schema {
  /** The values of the five fields. */
  datatype Params = Params(
    numRetainedVersions: int,
    frameSrcColId: int,
    frameColId: int,
    frameIdxColId: int,
    extractionFps: int)

  /** "No column" and "no frame rate": the value of an unset extraction field. */
  const Unset: int := -1

  /** The defaults: keep 10 versions, no frame extraction. */
  const DefaultParams: Params := Params(10, Unset, Unset, Unset, Unset)

  /** No frame extraction is configured. */
  predicate ExtractionUnset(p: Params)
  {
    p.frameSrcColId == Unset && p.frameColId == Unset && p.frameIdxColId == Unset && p.extractionFps == Unset
  }

  /** The fields after `reset()`. */
  function ResetOf(p: Params): (r: Params)
    ensures ExtractionUnset(r)
  {
    p.(frameSrcColId := Unset, frameColId := Unset, frameIdxColId := Unset, extractionFps := Unset)
  }

  /** Reset keeps the retention and gives exactly the defaults otherwise. */
  lemma ResetIsDefaultWithRetention(p: Params)
    ensures ResetOf(p).numRetainedVersions == p.numRetainedVersions
    ensures ResetOf(p) == DefaultParams.(numRetainedVersions := p.numRetainedVersions)
  {
  }

  /** Two resets are one. */
  lemma ResetIdempotent(p: Params)
    ensures ResetOf(ResetOf(p)) == ResetOf(p)
  {
  }

  /** Reset changes nothing exactly when no frame extraction is configured. */
  lemma ResetFixedPoints(p: Params)
    ensures ResetOf(p) == p <==> ExtractionUnset(p)
  {
  }

  class TableParameters {
    var numRetainedVersions: int
    var frameSrcColId: int
    var frameColId: int
    var frameIdxColId: int
    var extractionFps: int

    function Snapshot(): Params
      reads this
    {
      Params(numRetainedVersions, frameSrcColId, frameColId, frameIdxColId, extractionFps)
    }

    /** The dataclass constructor with every field defaulted. */
    constructor ()
      ensures Snapshot() == DefaultParams
    {
      numRetainedVersions := 10;
      frameSrcColId := Unset;
      frameColId := Unset;
      frameIdxColId := Unset;
      extractionFps := Unset;
    }

    /** The dataclass constructor with every field given. */
    constructor WithValues(p: Params)
      ensures Snapshot() == p
    {
      numRetainedVersions := p.numRetainedVersions;
      frameSrcColId := p.frameSrcColId;
      frameColId := p.frameColId;
      frameIdxColId := p.frameIdxColId;
      extractionFps := p.extractionFps;
    }

    /** `reset()` (schema.py:89-93): clear the four frame-extraction fields. */
    method Reset()
      modifies this
      ensures Snapshot() == ResetOf(old(Snapshot()))
    {
      frameSrcColId := Unset;
      frameColId := Unset;
      frameIdxColId := Unset;
      extractionFps := Unset;
    }
  }
}
