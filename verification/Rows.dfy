/** Lists that hold a grid row by row. */
module Rows {

  /** Where row y begins when every row has `width` elements. */
  function RowStart(width: int, y: int): int { y * width }

  lemma RowStartGrows(width: nat, a: nat, b: nat)
    requires a <= b
    ensures 0 <= RowStart(width, a) <= RowStart(width, b)
  {
  }

  lemma NextRow(width: int, y: int)
    ensures RowStart(width, y + 1) == RowStart(width, y) + width
  {
  }

  lemma RowStartAdds(width: nat, a: nat, b: nat)
    ensures RowStart(width, a + b) == RowStart(width, a) + RowStart(width, b)
    ensures RowStart(width, a) >= 0 && RowStart(width, 0) == 0
  {
  }
}
