/** Words of the transcription service's word-by-word output. */
module Words {
  import opened Wrappers

  /** A transcribed word; `span` is its (start, end) time in seconds when the word
      carries timing. */
  datatype Word = Word(text: string, span: Option<(real, real)>)

  /** The word has both a start and an end time. */
  predicate Timed(w: Word)
  {
    w.span.Some?
  }

  /** The middle of the word's time span. */
  function Midpoint(w: Word): (t: real)
    requires Timed(w)
    ensures w.span.value.0 <= w.span.value.1 ==> w.span.value.0 <= t <= w.span.value.1
  {
    (w.span.value.0 + w.span.value.1) / 2.0
  }
}
