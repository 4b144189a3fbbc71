/** The part of Python's `configparser` the plugins use: one section of the
    configuration file, read with `get`, `getint` and `getboolean` and a
    fallback for a missing option. Which file is read, and parsing it into
    sections, is outside the model; a section arrives as a map.
 */
module ConfigParser {
  import opened Wrappers
  import opened PyStr
  import opened PyNum

  /** A configuration section: option names to raw values. A missing section
      behaves like an empty one, since every lookup has a fallback. */
  type Section = map<string, string>

  /** `config.get(section, key, fallback=…)` */
  function Get(section: Section, key: string, fallback: string): (r: string)
    ensures key in section ==> r == section[key]
    ensures key !in section ==> r == fallback
  {
    if key in section then section[key] else fallback
  }

  /** `config.getint(section, key, fallback=…)`: `int()` of the raw value, which
      raises `ValueError` (here `None`) on anything that is not a number. */
  function GetInt(section: Section, key: string, fallback: int): Option<int> {
    if key in section then ParseInt(section[key]) else Some(fallback)
  }

  /** The words `getboolean` accepts, looked up after lower-casing. */
  function BooleanWord(word: string): (r: Option<bool>)
    ensures r == Some(true) <==> word in {"1", "yes", "true", "on"}
    ensures r == Some(false) <==> word in {"0", "no", "false", "off"}
  {
    if word == "1" || word == "yes" || word == "true" || word == "on" then Some(true)
    else if word == "0" || word == "no" || word == "false" || word == "off" then Some(false)
    else None
  }

  /** `config.getboolean(section, key, fallback=…)`: any other word raises
      `ValueError` (here `None`). */
  function GetBoolean(section: Section, key: string, fallback: bool): Option<bool> {
    if key in section then BooleanWord(Lower(section[key])) else Some(fallback)
  }

  /** A number written with `str()` reads back through `getint`. */
  lemma {:induction false} GetIntReadsBack(section: Section, key: string, n: int, fallback: int)
    ensures GetInt(section[key := IntToString(n)], key, fallback) == Some(n)
  {
    ParseIntOfString(n);
  }

  /** `true`/`false` written in any of the four accepted spellings (`true`/`false`,
      `yes`/`no`, `1`/`0`, `on`/`off`) read back through `getboolean`; the
      fallback is used only for a missing option. */
  lemma {:induction false} GetBooleanReadsBack(section: Section, key: string, b: bool, fallback: bool)
    ensures GetBoolean(section[key := if b then "true" else "false"], key, fallback) == Some(b)
    ensures GetBoolean(section[key := if b then "yes" else "no"], key, fallback) == Some(b)
    ensures GetBoolean(section[key := if b then "1" else "0"], key, fallback) == Some(b)
    ensures GetBoolean(section[key := if b then "on" else "off"], key, fallback) == Some(b)
    ensures key !in section ==> GetBoolean(section, key, fallback) == Some(fallback)
  {
    LowerOfLower("true");
    LowerOfLower("false");
    LowerOfLower("yes");
    LowerOfLower("no");
    LowerOfLower("1");
    LowerOfLower("0");
    LowerOfLower("on");
    LowerOfLower("off");
  }

  /** Upper-case spellings are accepted too. */
  lemma {:induction false} GetBooleanIgnoresCase(section: Section, key: string, fallback: bool)
    ensures GetBoolean(section[key := "TRUE"], key, fallback) == Some(true)
    ensures GetBoolean(section[key := "Off"], key, fallback) == Some(false)
  {
    assert Lower("TRUE") == "true";
    assert Lower("Off") == "off";
  }
}
