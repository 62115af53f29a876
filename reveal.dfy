/**
 * The letter-by-letter reveal (frontend/components/reveal-text.tsx): each code point of the text becomes one
 * element, a line break or a glyph with its own animation delay.
 */
module Reveal {

  const DEFAULT_BASE_DELAY_MS := 120
  const DEFAULT_STAGGER_MS := 90
  const NO_BREAK_SPACE: char := '\U{00A0}'

  /** One rendered character. */
  datatype Piece = LineBreak | Glyph(shown: char, delayMs: int)

  /** The piece for the character at `index`: the delay counts every earlier character, line breaks included. */
  function PieceAt(c: char, index: nat, baseDelayMs: int, staggerMs: int): Piece {
    if c == '\n' then LineBreak
    else Glyph(if c == ' ' then NO_BREAK_SPACE else c, baseDelayMs + index * staggerMs)
  }

  /** The rendered span: its accessible label and its pieces. */
  datatype Span = Span(ariaLabel: string, pieces: seq<Piece>)

  /** `RevealText` with explicit delays. */
  function RevealText(text: string, baseDelayMs: int, staggerMs: int): (r: Span)
    ensures r.ariaLabel == text
    ensures |r.pieces| == |text|
    ensures forall i :: 0 <= i < |text| ==> (r.pieces[i].LineBreak? <==> text[i] == '\n')
    ensures forall i :: 0 <= i < |text| && text[i] != '\n' ==>
      r.pieces[i].delayMs == baseDelayMs + i * staggerMs
      && r.pieces[i].shown == (if text[i] == ' ' then NO_BREAK_SPACE else text[i])
  {
    Span(text, seq(|text|, i requires 0 <= i < |text| => PieceAt(text[i], i, baseDelayMs, staggerMs)))
  }

  /** `RevealText` with its default delays. */
  function RevealTextDefault(text: string): Span {
    RevealText(text, DEFAULT_BASE_DELAY_MS, DEFAULT_STAGGER_MS)
  }

  /** With the defaults the first glyph starts at 120 ms and each later one 90 ms after its predecessor. */
  lemma DefaultDelays(text: string)
    ensures forall i :: 0 <= i < |text| && text[i] != '\n' ==>
      RevealTextDefault(text).pieces[i].delayMs == 120 + 90 * i
    ensures forall i :: 0 <= i < |text| - 1 && text[i] != '\n' && text[i + 1] != '\n' ==>
      RevealTextDefault(text).pieces[i + 1].delayMs - RevealTextDefault(text).pieces[i].delayMs == 90
  {
  }

  /** Only the spacing changes: the shown characters, read back, give the text with spaces made non-breaking. */
  lemma GlyphsKeepText(text: string)
    ensures forall i :: 0 <= i < |text| && text[i] != '\n' && text[i] != ' ' ==>
      RevealTextDefault(text).pieces[i].shown == text[i]
  {
  }
}
