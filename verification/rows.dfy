/** The progress-bar row every bar-drawing plugin builds with Python string
    repetition: `full * n + empty * (width - n)`.
 */
module Rows {
  import opened PyStr

  /** `max(n, 0)`: how many copies `s * n` makes. */
  function Clip(n: int): nat {
    if n > 0 then n else 0
  }

  /** A row of `n` full cells then `width - n` empty ones; either count may be
      negative, in which case Python's repetition gives the empty string. */
  function Row(n: int, width: int, full: string, empty: string): (row: string)
    ensures |row| == Clip(n) * |full| + Clip(width - n) * |empty|
    ensures |full| == 1 && |empty| == 1 ==> CellRow(row, n, full[0], empty[0])
  {
    var f := Repeat(full, n);
    var e := Repeat(empty, width - n);
    assert forall k :: |f| <= k < |f + e| ==> (f + e)[k] == e[k - |f|];
    f + e
  }

  /** Every cell before position `n` is `full` and every later one `empty`. */
  predicate CellRow(row: string, n: int, full: char, empty: char) {
    forall k :: 0 <= k < |row| ==> row[k] == (if k < n then full else empty)
  }

  /** With one-character cells and `0 <= n <= width` the row is exactly `width`
      cells and no empty cell comes before a full one. */
  lemma {:induction false} RowInRange(n: int, width: int, full: char, empty: char)
    requires 0 <= n <= width
    ensures |Row(n, width, [full], [empty])| == width
    ensures forall i, j :: 0 <= i < j < width ==>
      (Row(n, width, [full], [empty])[j] == full ==> Row(n, width, [full], [empty])[i] == full)
    ensures full != empty ==>
      forall k :: 0 <= k < width ==> (Row(n, width, [full], [empty])[k] == full <==> k < n)
  {
  }
}
