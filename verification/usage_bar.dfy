/** `create_bar(percentage, width=20)`, written out identically in
    plugins/cpu-bar.plugin.py and plugins/memory-bar.plugin.py: a row of `█`
    cells for the used share followed by `░` cells for the rest.
 */
module UsageBar {
  import opened PyStr
  import opened PyNum
  import Rows
  import opened RealArith

  const DefaultWidth: int := 20
  const FullCell: char := '█'
  const EmptyCell: char := '░'

  /** `round(percentage / 100 * width)`: how many cells are drawn full. */
  function FilledCells(percentage: real, width: int): int {
    RoundHalfEven(percentage / 100.0 * width as real)
  }

  /** The bar for a usage percentage. */
  function CreateBar(percentage: real, width: int): (bar: string)
    ensures |bar| == Rows.Clip(FilledCells(percentage, width)) + Rows.Clip(width - FilledCells(percentage, width))
    ensures Rows.CellRow(bar, FilledCells(percentage, width), FullCell, EmptyCell)
  {
    Rows.Row(FilledCells(percentage, width), width, [FullCell], [EmptyCell])
  }

  /** For a percentage in [0, 100] the filled count lies in [0, width] and is the
      nearest whole number of cells to the exact share. */
  lemma {:induction false} FilledCellsInRange(percentage: real, width: int)
    requires 0.0 <= percentage <= 100.0 && width >= 0
    ensures 0 <= FilledCells(percentage, width) <= width
    ensures var exact := percentage * width as real / 100.0;
      exact - 0.5 <= FilledCells(percentage, width) as real <= exact + 0.5
  {
    var w := width as real;
    var share := percentage / 100.0;
    var x := share * w;
    MulMonotone(0.0, share, w);
    MulMonotone(share, 1.0, w);
    assert x <= w;
    RoundHalfEvenMonotone(0.0, x);
    RoundHalfEvenMonotone(x, w);
    RoundHalfEvenOfInt(0);
    RoundHalfEvenOfInt(width);
  }

  /** For a percentage in [0, 100] the bar is exactly `width` cells, every full
      cell before every empty one. */
  lemma {:induction false} BarShape(percentage: real, width: int)
    requires 0.0 <= percentage <= 100.0 && width >= 0
    ensures |CreateBar(percentage, width)| == width
    ensures forall i, j :: 0 <= i < j < width ==>
      (CreateBar(percentage, width)[j] == FullCell ==> CreateBar(percentage, width)[i] == FullCell)
  {
    FilledCellsInRange(percentage, width);
  }

  /** 0% is an all-empty bar and 100% an all-full one. */
  lemma {:induction false} BarEnds(width: int)
    requires width >= 0
    ensures CreateBar(0.0, width) == Repeat([EmptyCell], width)
    ensures CreateBar(100.0, width) == Repeat([FullCell], width)
  {
    FilledCellsInRange(0.0, width);
    FilledCellsInRange(100.0, width);
    assert FilledCells(0.0, width) == 0 by {
      RoundHalfEvenOfInt(0);
      assert 0.0 / 100.0 * width as real == 0.0;
    }
    assert FilledCells(100.0, width) == width by {
      RoundHalfEvenOfInt(width);
      assert 100.0 / 100.0 * width as real == width as real;
    }
  }

  /** A higher percentage never draws fewer full cells. */
  lemma {:induction false} FilledCellsMonotone(p: real, q: real, width: int)
    requires p <= q && width >= 0
    ensures FilledCells(p, width) <= FilledCells(q, width)
  {
    MulMonotone(p / 100.0, q / 100.0, width as real);
    RoundHalfEvenMonotone(p / 100.0 * width as real, q / 100.0 * width as real);
  }
}

/** plugins/cpu-bar.plugin.py */
module CpuBar {
  import UsageBar
  import Rows

  /** `register()`: the one placeholder `cpu_bar`, a default-width bar of the
      CPU percentage (read from psutil, here a parameter). */
  function Register(cpuPercent: real): (m: map<string, string>)
    ensures m.Keys == {"cpu_bar"}
    ensures Rows.CellRow(m["cpu_bar"], UsageBar.FilledCells(cpuPercent, UsageBar.DefaultWidth),
      UsageBar.FullCell, UsageBar.EmptyCell)
    ensures 0.0 <= cpuPercent <= 100.0 ==> |m["cpu_bar"]| == UsageBar.DefaultWidth
  {
    assert 0.0 <= cpuPercent <= 100.0 ==> |UsageBar.CreateBar(cpuPercent, UsageBar.DefaultWidth)| == UsageBar.DefaultWidth by {
      if 0.0 <= cpuPercent <= 100.0 {
        UsageBar.BarShape(cpuPercent, UsageBar.DefaultWidth);
      }
    }
    map["cpu_bar" := UsageBar.CreateBar(cpuPercent, UsageBar.DefaultWidth)]
  }
}

/** plugins/memory-bar.plugin.py */
module MemoryBar {
  import UsageBar
  import Rows

  /** The part of `psutil.virtual_memory()` the plugin reads: byte counts and
      the used share as a percentage. */
  datatype VirtualMemory = VirtualMemory(total: int, available: int, percent: real)

  /** `register()`: the one placeholder `memory_bar`, a default-width bar of
      the `percent` field of the memory reading. */
  function Register(memory: VirtualMemory): (m: map<string, string>)
    ensures m.Keys == {"memory_bar"}
    ensures Rows.CellRow(m["memory_bar"], UsageBar.FilledCells(memory.percent, UsageBar.DefaultWidth),
      UsageBar.FullCell, UsageBar.EmptyCell)
    ensures 0.0 <= memory.percent <= 100.0 ==> |m["memory_bar"]| == UsageBar.DefaultWidth
  {
    var bar := UsageBar.CreateBar(memory.percent, UsageBar.DefaultWidth);
    assert 0.0 <= memory.percent <= 100.0 ==> |bar| == UsageBar.DefaultWidth by {
      if 0.0 <= memory.percent <= 100.0 {
        UsageBar.BarShape(memory.percent, UsageBar.DefaultWidth);
      }
    }
    map["memory_bar" := bar]
  }
}
