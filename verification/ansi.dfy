/** `colorize_text(text, color)`, written out identically in disk-bar,
    disk-usage, git-status and multi-ping: wraps a text in an ANSI "select
    foreground colour" sequence and a reset sequence.
 */
module Ansi {
  import opened Wrappers
  import opened PyStr

  const Esc: char := '\U{001B}'

  /** The eight colour names the plugins know, with their SGR foreground codes. */
  const Codes: map<string, string> := map[
    "black" := "30", "red" := "31", "green" := "32", "yellow" := "33",
    "blue" := "34", "magenta" := "35", "cyan" := "36", "white" := "37"
  ]

  /** A two-character SGR foreground code `30`..`37`. */
  predicate IsForegroundCode(code: string) {
    |code| == 2 && code[0] == '3' && '0' <= code[1] <= '7'
  }

  /** `colors.get(color.lower(), '37')`: the code of a colour name, looked up
      case-insensitively; names the table does not know fall back to white. */
  function ColorCode(color: string): (code: string)
    ensures IsForegroundCode(code)
    ensures Lower(color) in Codes ==> code == Codes[Lower(color)]
    ensures Lower(color) !in Codes ==> code == "37"
  {
    var name := Lower(color);
    if name in Codes then Codes[name] else "37"
  }

  /** Python lower-cases the Kelvin sign to `k`, so `BLAC` followed by it
      names black. */
  lemma {:induction false} KelvinNamesBlack()
    ensures ColorCode("BLAC" + [Kelvin]) == "30"
  {
    var l := Lower("BLAC" + [Kelvin]);
    assert l[0] == 'b' && l[1] == 'l' && l[2] == 'a' && l[3] == 'c' && l[4] == 'k';
    assert l == "black";
  }

  /** `f'\033[{code}m{text}\033[0m'` */
  function Colorize(text: string, color: string): string {
    [Esc] + "[" + ColorCode(color) + "m" + text + [Esc] + "[0m"
  }

  /** Splits a string produced by `Colorize` back into its colour code and its
      text; `None` for a string of any other shape. */
  function Decolorize(s: string): (r: Option<(string, string)>)
    ensures r.Some? ==> IsForegroundCode(r.value.0)
  {
    if |s| >= 9 && s[..2] == [Esc] + "[" && IsForegroundCode(s[2..4]) && s[4] == 'm'
      && s[|s| - 4..] == [Esc] + "[0m"
    then Some((s[2..4], s[5..|s| - 4]))
    else None
  }

  /** Colouring loses nothing: the code and the text can be read back. */
  lemma {:induction false} DecolorizeColorize(text: string, color: string)
    ensures Decolorize(Colorize(text, color)) == Some((ColorCode(color), text))
  {
    var s := Colorize(text, color);
    assert s[..2] == [Esc] + "[";
    assert s[2..4] == ColorCode(color);
    assert s[|s| - 4..] == [Esc] + "[0m";
    assert s[5..|s| - 4] == text;
  }

  /** Two coloured strings are equal only when their codes and texts are. */
  lemma {:induction false} ColorizeInjective(t1: string, c1: string, t2: string, c2: string)
    requires Colorize(t1, c1) == Colorize(t2, c2)
    ensures t1 == t2 && ColorCode(c1) == ColorCode(c2)
  {
    DecolorizeColorize(t1, c1);
    DecolorizeColorize(t2, c2);
  }

  /** The eight known names get eight different codes, whatever their case. */
  lemma {:induction false} KnownColorsDistinct(c1: string, c2: string)
    requires Lower(c1) in Codes && Lower(c2) in Codes && Lower(c1) != Lower(c2)
    ensures ColorCode(c1) != ColorCode(c2)
  {
  }
}
