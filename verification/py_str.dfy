/** The Python `str` operations the plugins rely on, as pure functions over
    `seq<char>` (a Python string is a sequence of code points, and so is a Dafny
    `string`).
 */
module PyStr {
  import opened Wrappers

  /** `c.isspace()`: the characters Python treats as whitespace in `str.split()`
      and `str.strip()` (tab to carriage return, the four separators
      U+001C..U+001F, the Unicode spaces and line separators). */
  predicate IsSpace(c: char) {
    || c == ' '
    || '\t' <= c <= '\r'
    || '\U{001C}' <= c <= '\U{001F}'
    || c == '\U{0085}' || c == '\U{00A0}' || c == '\U{1680}'
    || '\U{2000}' <= c <= '\U{200A}'
    || c == '\U{2028}' || c == '\U{2029}' || c == '\U{202F}' || c == '\U{205F}' || c == '\U{3000}'
  }

  predicate NoSpace(s: string) {
    forall k :: 0 <= k < |s| ==> !IsSpace(s[k])
  }

  // ---------------------------------------------------------------------------
  // Prefixes, suffixes and substrings
  // ---------------------------------------------------------------------------

  /** `s.startswith(p)` */
  predicate StartsWith(s: string, p: string) {
    |p| <= |s| && s[..|p|] == p
  }

  /** `s.endswith(p)` */
  predicate EndsWith(s: string, p: string) {
    |p| <= |s| && s[|s| - |p|..] == p
  }

  /** `t in s` for strings: `t` occurs somewhere in `s` (the empty string occurs everywhere). */
  predicate Contains(s: string, t: string)
    decreases |s|
  {
    StartsWith(s, t) || (|s| > 0 && Contains(s[1..], t))
  }

  /** `t` occurs in `s` starting at index `i`. */
  predicate OccursAt(s: string, t: string, i: int) {
    0 <= i <= |s| - |t| && s[i..i + |t|] == t
  }

  /** An occurrence past the first character is one in the rest of the string. */
  lemma {:induction false} OccursShift(s: string, t: string, i: int)
    requires |s| > 0 && i > 0
    ensures OccursAt(s, t, i) <==> OccursAt(s[1..], t, i - 1)
  {
    if 0 <= i <= |s| - |t| {
      assert s[1..][i - 1..i - 1 + |t|] == s[i..i + |t|];
    }
  }

  /** `Contains` agrees with the positional definition of a substring. */
  lemma {:induction false} ContainsIff(s: string, t: string)
    ensures Contains(s, t) <==> exists i :: OccursAt(s, t, i)
    decreases |s|
  {
    if StartsWith(s, t) {
      assert OccursAt(s, t, 0);
    } else if |s| > 0 {
      ContainsIff(s[1..], t);
      if Contains(s[1..], t) {
        var i :| OccursAt(s[1..], t, i);
        OccursShift(s, t, i + 1);
      } else {
        forall i | OccursAt(s, t, i)
          ensures false
        {
          if i != 0 {
            OccursShift(s, t, i);
          }
        }
      }
    }
  }

  /** A string contains every piece it is built from. */
  lemma {:induction false} ContainsMiddle(a: string, t: string, b: string)
    ensures Contains(a + t + b, t)
  {
    var s := a + t + b;
    assert s[|a|..|a| + |t|] == t;
    assert OccursAt(s, t, |a|);
    ContainsIff(s, t);
  }

  /** A pattern whose character `t[p]` occurs in `a + [t[p]] + b` only between
      `a` and `b` can occur there only at `|a| - p`. */
  lemma {:induction false} NotContainsAround(a: string, b: string, t: string, p: nat)
    requires p < |t| && t[p] !in a && t[p] !in b
    requires !(|a| >= p && OccursAt(a + [t[p]] + b, t, |a| - p))
    ensures !Contains(a + [t[p]] + b, t)
  {
    var s := a + [t[p]] + b;
    var j := |a|;
    forall k | 0 <= k < j
      ensures s[k] != t[p]
    {
      assert s[k] == a[k];
    }
    forall k | j < k < |s|
      ensures s[k] != t[p]
    {
      assert s[k] == b[k - j - 1];
    }
    ContainsIff(s, t);
    forall i | OccursAt(s, t, i)
      ensures i + p == j
    {
      assert s[i + p] == t[p];
    }
  }

  /** A string starts with whatever it was built from first. */
  lemma {:induction false} StartsWithAppend(p: string, rest: string)
    ensures StartsWith(p + rest, p)
  {
    assert (p + rest)[..|p|] == p;
  }

  /** A string with no character `c` does not contain a pattern that has one. */
  lemma {:induction false} NotContainsChar(s: string, t: string, c: char)
    requires c !in s && c in t
    ensures !Contains(s, t)
  {
    ContainsIff(s, t);
  }

  /** `s.find(c)` for a single character: the first index holding `c`, if any. */
  function IndexOf(s: string, c: char): (r: Option<nat>)
    ensures r.None? <==> c !in s
    ensures r.Some? ==> r.value < |s| && s[r.value] == c && c !in s[..r.value]
    decreases |s|
  {
    if |s| == 0 then None
    else if s[0] == c then Some(0)
    else
      match IndexOf(s[1..], c)
      case None => None
      case Some(k) =>
        assert s[..k + 1] == [s[0]] + s[1..][..k];
        Some(k + 1)
  }

  // ---------------------------------------------------------------------------
  // Case and whitespace
  // ---------------------------------------------------------------------------

  predicate IsUpper(c: char) {
    'A' <= c <= 'Z'
  }

  /** U+212A KELVIN SIGN: the one character outside A–Z that Python
      lower-cases to an ASCII letter (`k`). */
  const Kelvin: char := '\U{212A}'

  /** A character `LowerChar` changes. */
  predicate Cased(c: char) {
    IsUpper(c) || c == Kelvin
  }

  function LowerChar(c: char): (r: char)
    ensures !Cased(r)
    ensures IsUpper(c) ==> r as int == c as int + 32
    ensures c == Kelvin ==> r == 'k'
    ensures !Cased(c) ==> r == c
  {
    if IsUpper(c) then (c as int + 32) as char else if c == Kelvin then 'k' else c
  }

  /** `s.lower()` on the ASCII capitals and the Kelvin sign. */
  function Lower(s: string): (r: string)
    ensures |r| == |s|
    ensures forall k :: 0 <= k < |r| ==> !Cased(r[k])
    ensures forall k :: 0 <= k < |s| && !Cased(s[k]) ==> r[k] == s[k]
  {
    seq(|s|, k requires 0 <= k < |s| => LowerChar(s[k]))
  }

  /** Lower-casing leaves a string without capitals alone. */
  lemma {:induction false} LowerOfLower(s: string)
    requires forall k :: 0 <= k < |s| ==> !Cased(s[k])
    ensures Lower(s) == s
  {
  }

  /** Lower-casing a capitalised word changes only its first letter. */
  lemma {:induction false} LowerHead(c: char, rest: string)
    requires forall k :: 0 <= k < |rest| ==> !Cased(rest[k])
    ensures Lower([c] + rest) == [LowerChar(c)] + rest
  {
    var s := [c] + rest;
    assert forall k :: 1 <= k < |s| ==> s[k] == rest[k - 1];
  }

  /** `s.lstrip()`: `s` without its leading whitespace. */
  function TrimLeft(s: string): (r: string)
    ensures |r| <= |s| && r == s[|s| - |r|..]
    ensures forall k :: 0 <= k < |s| - |r| ==> IsSpace(s[k])
    ensures |r| > 0 ==> !IsSpace(r[0])
    decreases |s|
  {
    if |s| > 0 && IsSpace(s[0]) then TrimLeft(s[1..]) else s
  }

  /** `s.rstrip()`: `s` without its trailing whitespace. */
  function TrimRight(s: string): (r: string)
    ensures |r| <= |s| && r == s[..|r|]
    ensures forall k :: |r| <= k < |s| ==> IsSpace(s[k])
    ensures |r| > 0 ==> !IsSpace(r[|r| - 1])
    decreases |s|
  {
    if |s| > 0 && IsSpace(s[|s| - 1]) then TrimRight(s[..|s| - 1]) else s
  }

  /** `s.strip()`: `s` without its leading and trailing whitespace. */
  function Strip(s: string): (r: string)
    ensures |r| <= |s|
    ensures |r| > 0 ==> !IsSpace(r[0]) && !IsSpace(r[|r| - 1])
  {
    TrimRight(TrimLeft(s))
  }

  /** Stripping keeps every character that is not whitespace. */
  lemma {:induction false} InStrip(s: string, c: char)
    requires c in s && !IsSpace(c)
    ensures c in Strip(s)
  {
    var l := TrimLeft(s);
    var i :| 0 <= i < |s| && s[i] == c;
    assert l[i - (|s| - |l|)] == c;
    var r := TrimRight(l);
    assert r[i - (|s| - |l|)] == c;
  }

  /** `s.strip(c)`: `s` without the leading and trailing copies of `c`. */
  function StripChar(s: string, c: char): (r: string)
    ensures |r| <= |s|
    ensures |r| > 0 ==> r[0] != c && r[|r| - 1] != c
    ensures c !in s ==> r == s
    ensures forall k :: 0 <= k < |r| ==> r[k] in s
  {
    TrimCharRight(TrimCharLeft(s, c), c)
  }

  function TrimCharLeft(s: string, c: char): (r: string)
    ensures |r| <= |s| && r == s[|s| - |r|..]
    ensures |r| > 0 ==> r[0] != c
    ensures c !in s ==> r == s
    decreases |s|
  {
    if |s| > 0 && s[0] == c then TrimCharLeft(s[1..], c) else s
  }

  function TrimCharRight(s: string, c: char): (r: string)
    ensures |r| <= |s| && r == s[..|r|]
    ensures |r| > 0 ==> r[|r| - 1] != c
    ensures c !in s ==> r == s
    decreases |s|
  {
    if |s| > 0 && s[|s| - 1] == c then TrimCharRight(s[..|s| - 1], c) else s
  }

  /** A text quoted with `c` on both sides, and neither starting nor ending
      with `c` itself, comes back from `strip(c)`. */
  lemma {:induction false} StripCharQuoted(v: string, c: char)
    requires |v| > 0 ==> v[0] != c && v[|v| - 1] != c
    ensures StripChar([c] + v + [c], c) == v
  {
    var q := [c] + v + [c];
    assert q[1..] == v + [c];
    var l := v + [c];
    if |v| == 0 {
      assert TrimCharLeft(l, c) == TrimCharLeft(l[1..], c);
    } else {
      assert TrimCharLeft(q, c) == TrimCharLeft(l, c);
      assert TrimCharLeft(l, c) == l;
      assert l[..|l| - 1] == v;
      assert TrimCharRight(l, c) == TrimCharRight(v, c);
    }
  }

  /** Stripping removes whitespace padding around a text that neither starts
      nor ends with whitespace. */
  lemma {:induction false} StripPadded(left: string, x: string, right: string)
    requires forall k :: 0 <= k < |left| ==> IsSpace(left[k])
    requires forall k :: 0 <= k < |right| ==> IsSpace(right[k])
    requires |x| > 0 && !IsSpace(x[0]) && !IsSpace(x[|x| - 1])
    ensures Strip(left + x + right) == x
  {
    TrimLeftPadded(left, x + right);
    assert left + x + right == left + (x + right);
    TrimRightPadded(x, right);
  }

  lemma {:induction false} TrimLeftPadded(left: string, x: string)
    requires forall k :: 0 <= k < |left| ==> IsSpace(left[k])
    requires |x| > 0 && !IsSpace(x[0])
    ensures TrimLeft(left + x) == x
    decreases |left|
  {
    if |left| > 0 {
      assert (left + x)[1..] == left[1..] + x;
      TrimLeftPadded(left[1..], x);
    } else {
      assert left + x == x;
    }
  }

  lemma {:induction false} TrimRightPadded(x: string, right: string)
    requires forall k :: 0 <= k < |right| ==> IsSpace(right[k])
    requires |x| > 0 && !IsSpace(x[|x| - 1])
    ensures TrimRight(x + right) == x
    decreases |right|
  {
    if |right| > 0 {
      var r' := right[..|right| - 1];
      assert (x + right)[..|x + right| - 1] == x + r';
      TrimRightPadded(x, r');
    } else {
      assert x + right == x;
    }
  }

  /** Stripping leaves alone a string that neither starts nor ends with whitespace. */
  lemma {:induction false} StripNoop(s: string)
    requires |s| > 0 ==> !IsSpace(s[0]) && !IsSpace(s[|s| - 1])
    ensures Strip(s) == s
  {
  }

  // ---------------------------------------------------------------------------
  // Splitting and joining
  // ---------------------------------------------------------------------------

  /** `s.split(sep)` for a one-character separator. */
  function Split(s: string, sep: char): (r: seq<string>)
    ensures |r| >= 1
    decreases |s|
  {
    match IndexOf(s, sep)
    case None => [s]
    case Some(k) => [s[..k]] + Split(s[k + 1..], sep)
  }

  /** No piece of a split holds the separator, and there is more than one piece
      exactly when the text holds it. */
  lemma {:induction false} SplitPieces(s: string, sep: char)
    ensures forall i :: 0 <= i < |Split(s, sep)| ==> sep !in Split(s, sep)[i]
    ensures |Split(s, sep)| > 1 <==> sep in s
    decreases |s|
  {
    match IndexOf(s, sep)
    case None =>
    case Some(k) =>
      SplitPieces(s[k + 1..], sep);
      var rest := Split(s[k + 1..], sep);
      assert Split(s, sep) == [s[..k]] + rest;
  }

  /** `sep.join(parts)` */
  function Join(parts: seq<string>, sep: string): string
    decreases |parts|
  {
    if |parts| == 0 then ""
    else if |parts| == 1 then parts[0]
    else parts[0] + sep + Join(parts[1..], sep)
  }

  /** A join starts where its first piece does. */
  lemma {:induction false} JoinFirst(parts: seq<string>, sep: string)
    requires |parts| >= 1 && |parts[0]| >= 1
    ensures |Join(parts, sep)| >= |parts[0]| && Join(parts, sep)[0] == parts[0][0]
  {
  }

  /** A join ends where its last piece does. */
  lemma {:induction false} JoinLast(parts: seq<string>, sep: string)
    requires |parts| >= 1 && |parts[|parts| - 1]| >= 1
    ensures var j := Join(parts, sep); |j| >= 1 && j[|j| - 1] == parts[|parts| - 1][|parts[|parts| - 1]| - 1]
    decreases |parts|
  {
    if |parts| > 1 {
      JoinLast(parts[1..], sep);
    }
  }

  /** A character in no piece and not in the separator is not in the join. */
  lemma {:induction false} JoinAvoids(parts: seq<string>, sep: string, c: char)
    requires forall k :: 0 <= k < |parts| ==> c !in parts[k]
    requires c !in sep
    ensures c !in Join(parts, sep)
    decreases |parts|
  {
    if |parts| > 1 {
      JoinAvoids(parts[1..], sep, c);
    }
  }

  /** A string is what comes before index `k`, the character there, and what
      comes after. */
  lemma {:induction false} CutAt(s: string, k: nat)
    requires k < |s|
    ensures s == s[..k] + [s[k]] + s[k + 1..]
  {
    assert s == s[..k] + s[k..];
    assert s[k..] == [s[k]] + s[k + 1..];
  }

  /** Joining the pieces of a split with the separator gives back the original string. */
  lemma {:induction false} JoinSplit(s: string, sep: char)
    ensures Join(Split(s, sep), [sep]) == s
    decreases |s|
  {
    match IndexOf(s, sep)
    case None =>
    case Some(k) =>
      var rest := Split(s[k + 1..], sep);
      var parts := [s[..k]] + rest;
      assert Split(s, sep) == parts;
      assert |parts| > 1 && parts[0] == s[..k] && parts[1..] == rest;
      assert Join(parts, [sep]) == s[..k] + [sep] + Join(rest, [sep]);
      JoinSplit(s[k + 1..], sep);
      CutAt(s, k);
  }

  /** Splitting a join of separator-free pieces gives back the pieces. */
  lemma {:induction false} SplitJoin(parts: seq<string>, sep: char)
    requires |parts| >= 1
    requires forall i :: 0 <= i < |parts| ==> sep !in parts[i]
    ensures Split(Join(parts, [sep]), sep) == parts
    decreases |parts|
  {
    if |parts| > 1 {
      var head := parts[0];
      var tail := Join(parts[1..], [sep]);
      var s := head + [sep] + tail;
      assert Join(parts, [sep]) == s;
      assert s[..|head|] == head;
      assert s[|head|] == sep;
      IndexOfFirst(s, sep, |head|);
      assert s[|head| + 1..] == tail;
      assert Split(s, sep) == [head] + Split(tail, sep);
      SplitJoin(parts[1..], sep);
      assert parts == [head] + parts[1..];
    }
  }

  /** `s.split(sep, 1)` unpacked into two names: the text before the first
      separator and the text after it; `None` (a `ValueError` on unpacking)
      when there is no separator. */
  function SplitOnce(s: string, sep: char): (r: Option<(string, string)>)
    ensures r.None? <==> sep !in s
    ensures r.Some? ==> s == r.value.0 + [sep] + r.value.1 && sep !in r.value.0
  {
    match IndexOf(s, sep)
    case None => None
    case Some(k) =>
      CutAt(s, k);
      Some((s[..k], s[k + 1..]))
  }

  /** Splitting once at the separator undoes joining two texts with it, when
      the first has none. */
  lemma {:induction false} SplitOnceJoin(a: string, b: string, sep: char)
    requires sep !in a
    ensures SplitOnce(a + [sep] + b, sep) == Some((a, b))
  {
    var s := a + [sep] + b;
    IndexOfFirst(s, sep, |a|);
    assert s[..|a|] == a && s[|a| + 1..] == b;
  }

  /** `[p.strip() for p in s.split(sep)]`: one stripped item per field. */
  function SplitStrip(s: string, sep: char): (items: seq<string>)
    ensures |items| == |Split(s, sep)|
    ensures forall k :: 0 <= k < |items| ==> items[k] == Strip(Split(s, sep)[k])
  {
    var pieces := Split(s, sep);
    seq(|pieces|, k requires 0 <= k < |pieces| => Strip(pieces[k]))
  }

  /** An item that survives `SplitStrip`: no separator inside, no whitespace at
      either end. */
  predicate Field(item: string, sep: char) {
    sep !in item && (|item| > 0 ==> !IsSpace(item[0]) && !IsSpace(item[|item| - 1]))
  }

  /** Joining fields with the separator and splitting them again gives them back. */
  lemma {:induction false} SplitStripJoin(items: seq<string>, sep: char)
    requires |items| >= 1
    requires forall k :: 0 <= k < |items| ==> Field(items[k], sep)
    ensures SplitStrip(Join(items, [sep]), sep) == items
  {
    SplitJoin(items, sep);
    forall k | 0 <= k < |items|
      ensures Strip(items[k]) == items[k]
    {
      StripNoop(items[k]);
    }
  }

  /** A text without the separator splits into itself alone. */
  lemma {:induction false} SplitWhole(s: string, sep: char)
    requires sep !in s
    ensures Split(s, sep) == [s]
  {
  }

  /** The last piece of a split is the text after the last separator. */
  lemma {:induction false} SplitLast(a: string, b: string, sep: char)
    requires sep !in b
    ensures var r := Split(a + [sep] + b, sep); r[|r| - 1] == b
  {
    SplitAppend(a, b, sep);
    SplitWhole(b, sep);
  }

  /** Splitting at a separator splits each side on its own. */
  lemma {:induction false} SplitAppend(a: string, b: string, sep: char)
    ensures Split(a + [sep] + b, sep) == Split(a, sep) + Split(b, sep)
    decreases |a|
  {
    match IndexOf(a, sep)
    case None =>
      SplitAppendClean(a, b, sep);
    case Some(j) =>
      SplitAppend(a[j + 1..], b, sep);
      SplitAppendStep(a, b, sep, j);
  }

  /** One step of `SplitAppend`, given the result for the text after the
      first separator of `a`. */
  lemma {:induction false} SplitAppendStep(a: string, b: string, sep: char, j: nat)
    requires IndexOf(a, sep) == Some(j)
    requires Split(a[j + 1..] + [sep] + b, sep) == Split(a[j + 1..], sep) + Split(b, sep)
    ensures Split(a + [sep] + b, sep) == Split(a, sep) + Split(b, sep)
  {
    SplitAppendCut(a, b, sep, j);
    SplitAt(a, sep, j);
    Regroup(Split(a + [sep] + b, sep), Split(a, sep), [a[..j]], Split(a[j + 1..], sep), Split(b, sep));
  }

  /** Concatenation regrouped, on names rather than terms. */
  lemma {:induction false} Regroup<T>(whole: seq<T>, part: seq<T>, head: seq<T>, x: seq<T>, y: seq<T>)
    requires whole == head + (x + y) && part == head + x
    ensures whole == part + y
  {
  }

  /** One step of `Split`: the piece before the first separator, then the rest. */
  lemma {:induction false} SplitAt(s: string, sep: char, j: nat)
    requires IndexOf(s, sep) == Some(j)
    ensures Split(s, sep) == [s[..j]] + Split(s[j + 1..], sep)
  {
  }

  lemma {:induction false} SplitAppendClean(a: string, b: string, sep: char)
    requires sep !in a
    ensures Split(a + [sep] + b, sep) == Split(a, sep) + Split(b, sep)
  {
    var s := a + [sep] + b;
    IndexOfFirst(s, sep, |a|);
    assert s[..|a|] == a && s[|a| + 1..] == b;
    SplitAt(s, sep, |a|);
    SplitWhole(a, sep);
  }

  /** The first cut of `a + [sep] + b` falls where the first cut of `a` does. */
  lemma {:induction false} SplitAppendCut(a: string, b: string, sep: char, j: nat)
    requires IndexOf(a, sep) == Some(j)
    ensures Split(a + [sep] + b, sep) == [a[..j]] + Split(a[j + 1..] + [sep] + b, sep)
  {
    var s := a + [sep] + b;
    IndexOfPrefix(a, [sep] + b, sep, j);
    assert s == a + ([sep] + b);
    assert s[..j] == a[..j];
    assert s[j + 1..] == a[j + 1..] + [sep] + b;
    SplitAt(s, sep, j);
  }

  /** The first separator of a prefix that holds one is the first of the whole. */
  lemma {:induction false} IndexOfPrefix(a: string, b: string, c: char, j: nat)
    requires IndexOf(a, c) == Some(j)
    ensures IndexOf(a + b, c) == Some(j)
  {
    var s := a + b;
    assert s[..j] == a[..j];
    IndexOfFirst(s, c, j);
  }

  /** How many times `c` occurs in `s` (`s.count(c)`). */
  function CountChar(s: string, c: char): nat
    decreases |s|
  {
    if |s| == 0 then 0 else (if s[0] == c then 1 else 0) + CountChar(s[1..], c)
  }

  lemma {:induction false} CountCharAppend(a: string, b: string, c: char)
    ensures CountChar(a + b, c) == CountChar(a, c) + CountChar(b, c)
    decreases |a|
  {
    if |a| > 0 {
      assert (a + b)[1..] == a[1..] + b;
      CountCharAppend(a[1..], b, c);
    } else {
      assert a + b == b;
    }
  }

  lemma {:induction false} CountCharAbsent(s: string, c: char)
    requires c !in s
    ensures CountChar(s, c) == 0
    decreases |s|
  {
    if |s| > 0 {
      assert c !in s[1..] by {
        assert forall k :: 0 <= k < |s[1..]| ==> s[1..][k] == s[k + 1];
      }
      CountCharAbsent(s[1..], c);
    }
  }

  /** `len(s.split(sep))` is one more than the number of separators. */
  lemma {:induction false} SplitCount(s: string, sep: char)
    ensures |Split(s, sep)| == CountChar(s, sep) + 1
    decreases |s|
  {
    match IndexOf(s, sep)
    case None =>
      CountCharAbsent(s, sep);
    case Some(k) =>
      SplitCount(s[k + 1..], sep);
      CutAt(s, k);
      CountCharAppend(s[..k] + [sep], s[k + 1..], sep);
      CountCharAppend(s[..k], [sep], sep);
      CountCharAbsent(s[..k], sep);
      assert CountChar([sep], sep) == 1 by {
        assert [sep][1..] == [];
      }
  }

  /** `IndexOf` finds the first occurrence. */
  lemma {:induction false} IndexOfFirst(s: string, c: char, k: nat)
    requires k < |s| && s[k] == c && c !in s[..k]
    ensures IndexOf(s, c) == Some(k)
  {
  }

  /** The leading run of non-whitespace characters of `s`. */
  function Word(s: string): (r: string)
    ensures |r| <= |s| && r == s[..|r|] && NoSpace(r)
    ensures |r| < |s| ==> IsSpace(s[|r|])
    decreases |s|
  {
    if |s| == 0 || IsSpace(s[0]) then "" else [s[0]] + Word(s[1..])
  }

  /** `s.split()`: the maximal runs of non-whitespace characters, in order. */
  function SplitWs(s: string): (r: seq<string>)
    ensures forall i :: 0 <= i < |r| ==> |r[i]| > 0 && NoSpace(r[i])
    decreases |s|
  {
    if |s| == 0 then []
    else if IsSpace(s[0]) then SplitWs(s[1..])
    else
      var w := Word(s);
      [w] + SplitWs(s[|w|..])
  }

  /** Whitespace splitting undoes joining nonempty space-free words with single spaces. */
  lemma {:induction false} SplitWsJoin(words: seq<string>)
    requires forall i :: 0 <= i < |words| ==> |words[i]| > 0 && NoSpace(words[i])
    ensures SplitWs(Join(words, " ")) == words
    decreases |words|
  {
    if |words| == 1 {
      var w := words[0];
      WordOfNoSpace(w, "");
      assert w + "" == w;
      assert w[|w|..] == "";
    } else if |words| > 1 {
      var w := words[0];
      var rest := Join(words[1..], " ");
      var s := w + " " + rest;
      WordOfNoSpace(w, " " + rest);
      assert s == w + (" " + rest);
      assert s[|w|..] == " " + rest;
      assert (" " + rest)[1..] == rest;
      SplitWsJoin(words[1..]);
      assert words == [w] + words[1..];
    }
  }

  /** The same holds with trailing whitespace, such as the newline that ends
      a line read from a file. */
  lemma {:induction false} SplitWsJoinThen(words: seq<string>, tail: string)
    requires forall i :: 0 <= i < |words| ==> |words[i]| > 0 && NoSpace(words[i])
    requires forall k :: 0 <= k < |tail| ==> IsSpace(tail[k])
    ensures SplitWs(Join(words, " ") + tail) == words
    decreases |words|
  {
    if |words| == 0 {
      assert Join(words, " ") + tail == tail;
      SplitWsOfSpace(tail);
    } else if |words| == 1 {
      var w := words[0];
      WordOfNoSpace(w, tail);
      assert (w + tail)[|w|..] == tail;
      SplitWsOfSpace(tail);
    } else {
      var w := words[0];
      var rest := Join(words[1..], " ") + tail;
      var s := w + " " + Join(words[1..], " ") + tail;
      WordOfNoSpace(w, " " + rest);
      assert s == w + (" " + rest);
      assert s[|w|..] == " " + rest;
      assert (" " + rest)[1..] == rest;
      SplitWsJoinThen(words[1..], tail);
      assert words == [w] + words[1..];
    }
  }

  lemma {:induction false} SplitWsOfSpace(s: string)
    requires forall k :: 0 <= k < |s| ==> IsSpace(s[k])
    ensures SplitWs(s) == []
    decreases |s|
  {
    if |s| > 0 {
      SplitWsOfSpace(s[1..]);
    }
  }

  lemma {:induction false} WordOfNoSpace(w: string, rest: string)
    requires NoSpace(w)
    requires |rest| == 0 || IsSpace(rest[0])
    ensures Word(w + rest) == w
    decreases |w|
  {
    if |w| > 0 {
      assert (w + rest)[1..] == w[1..] + rest;
      WordOfNoSpace(w[1..], rest);
      assert w == [w[0]] + w[1..];
    }
  }

  // ---------------------------------------------------------------------------
  // Multi-character patterns
  // ---------------------------------------------------------------------------

  /** `s.find(pat)`: the first index at which `pat` occurs in `s`, if any. */
  function Find(s: string, pat: string): (r: Option<nat>)
    ensures r.None? <==> !Contains(s, pat)
    ensures r.Some? ==> r.value + |pat| <= |s| && s[r.value..r.value + |pat|] == pat
    ensures r.Some? ==> forall i :: 0 <= i < r.value ==> !OccursAt(s, pat, i)
    decreases |s|
  {
    if StartsWith(s, pat) then
      assert s[0..0 + |pat|] == pat;
      Some(0)
    else if |s| == 0 then None
    else
      match Find(s[1..], pat)
      case None => None
      case Some(k) =>
        assert OccursAt(s, pat, k + 1) by {
          assert OccursAt(s[1..], pat, k);
          OccursShift(s, pat, k + 1);
        }
        assert forall i :: 0 < i < k + 1 ==> !OccursAt(s, pat, i) by {
          forall i | 0 < i < k + 1
            ensures !OccursAt(s, pat, i)
          {
            OccursShift(s, pat, i);
          }
        }
        assert !OccursAt(s, pat, 0) by {
          assert s[0..0 + |pat|] == s[..|pat|];
        }
        Some(k + 1)
  }

  /** The part of `s` after the first occurrence of `pat` (`s.partition(pat)[2]`). */
  function After(s: string, pat: string): (r: string)
    ensures Contains(s, pat) ==> exists i :: 0 <= i <= |s| - |pat| && s == s[..i] + pat + r
    ensures !Contains(s, pat) ==> r == ""
  {
    match Find(s, pat)
    case None => ""
    case Some(k) =>
      assert s == s[..k] + pat + s[k + |pat|..];
      s[k + |pat|..]
  }

  /** The part of `s` before the first occurrence of `pat`, or all of `s` when
      there is none (`s.split(pat)[0]`). */
  function Before(s: string, pat: string): (r: string)
    ensures StartsWith(s, r)
    ensures !Contains(s, pat) ==> r == s
    ensures Contains(s, pat) ==> StartsWith(s[|r|..], pat)
  {
    match Find(s, pat)
    case None => s
    case Some(k) => s[..k]
  }

  /** A pattern none of whose later characters repeats its first one cannot
      overlap itself, so after a prefix free of it, its first occurrence is
      right after the prefix. */
  lemma {:induction false} FindAfterPrefix(pre: string, pat: string, x: string)
    requires |pat| > 0 && !Contains(pre, pat)
    requires forall k :: 1 <= k < |pat| ==> pat[k] != pat[0]
    ensures Find(pre + pat + x, pat) == Some(|pre|)
  {
    var s := pre + pat + x;
    assert s[|pre|..|pre| + |pat|] == pat;
    assert OccursAt(s, pat, |pre|);
    ContainsIff(s, pat);
    forall i | 0 <= i < |pre|
      ensures !OccursAt(s, pat, i)
    {
      if i + |pat| <= |pre| {
        if OccursAt(s, pat, i) {
          assert pre[i..i + |pat|] == s[i..i + |pat|];
          assert OccursAt(pre, pat, i);
          ContainsIff(pre, pat);
        }
      } else if i + |pat| <= |s| {
        assert s[i..i + |pat|][|pre| - i] == s[|pre|];
      }
    }
    var j := Find(s, pat).value;
    assert OccursAt(s, pat, j);
    assert j <= |pre|;
  }

  /** `s.partition(pat)[2]` of a string built around the first occurrence. */
  lemma {:induction false} AfterPrefix(pre: string, pat: string, x: string)
    requires |pat| > 0 && !Contains(pre, pat)
    requires forall k :: 1 <= k < |pat| ==> pat[k] != pat[0]
    ensures After(pre + pat + x, pat) == x
  {
    FindAfterPrefix(pre, pat, x);
    assert (pre + pat + x)[|pre| + |pat|..] == x;
  }

  /** `s.split(pat)[0]` of a string built around the first occurrence. */
  lemma {:induction false} BeforePrefix(pre: string, pat: string, x: string)
    requires |pat| > 0 && !Contains(pre, pat)
    requires forall k :: 1 <= k < |pat| ==> pat[k] != pat[0]
    ensures Before(pre + pat + x, pat) == pre
  {
    FindAfterPrefix(pre, pat, x);
    assert (pre + pat + x)[..|pre|] == pre;
  }

  /** `s.replace(pat, "")`: every non-overlapping occurrence of `pat`, scanning
      left to right, removed. */
  function RemoveAll(s: string, pat: string): (r: string)
    requires |pat| > 0
    ensures |r| <= |s|
    ensures !Contains(s, pat) ==> r == s
    decreases |s|
  {
    if |s| == 0 then s
    else if StartsWith(s, pat) then RemoveAll(s[|pat|..], pat)
    else
      var rest := RemoveAll(s[1..], pat);
      assert s == [s[0]] + s[1..];
      [s[0]] + rest
  }

  /** Removing a pattern skips over a prefix that cannot start it, and removes
      the occurrence that follows. */
  lemma {:induction false} RemoveAllAround(a: string, pat: string, b: string)
    requires |pat| > 0 && pat[0] !in a
    ensures RemoveAll(a + pat + b, pat) == a + RemoveAll(b, pat)
    decreases |a|
  {
    if |a| == 0 {
      RemoveAllLeading(pat, b);
      assert a + pat + b == pat + b;
    } else {
      RemoveAllAround(a[1..], pat, b);
      RemoveAllStep(a, pat, b);
    }
  }

  /** One step of `RemoveAllAround`, given the result for the rest of `a`. */
  lemma {:induction false} RemoveAllStep(a: string, pat: string, b: string)
    requires |pat| > 0 && |a| > 0 && a[0] != pat[0]
    requires RemoveAll(a[1..] + pat + b, pat) == a[1..] + RemoveAll(b, pat)
    ensures RemoveAll(a + pat + b, pat) == a + RemoveAll(b, pat)
  {
    RemoveAllSkip(a, pat, b);
    assert a == [a[0]] + a[1..];
    Regroup(RemoveAll(a + pat + b, pat), a, [a[0]], a[1..], RemoveAll(b, pat));
  }

  /** An occurrence at the start is removed. */
  lemma {:induction false} RemoveAllLeading(pat: string, b: string)
    requires |pat| > 0
    ensures RemoveAll(pat + b, pat) == RemoveAll(b, pat)
  {
    var s := pat + b;
    assert s[..|pat|] == pat;
    assert s[|pat|..] == b;
  }

  /** A first character that cannot start the pattern is kept. */
  lemma {:induction false} RemoveAllSkip(a: string, pat: string, b: string)
    requires |pat| > 0 && |a| > 0 && a[0] != pat[0]
    ensures RemoveAll(a + pat + b, pat) == [a[0]] + RemoveAll(a[1..] + pat + b, pat)
  {
    var s := a + pat + b;
    assert s[0] == a[0];
    assert !StartsWith(s, pat) by {
      assert s[..|pat|][0] == a[0];
    }
    assert s[1..] == a[1..] + pat + b;
  }

  /** `s * n`: `n` copies of `s`; Python gives the empty string for `n <= 0`. */
  function Repeat(s: string, n: int): (r: string)
    ensures |r| == if n <= 0 then 0 else n * |s|
    ensures |s| == 1 ==> forall k :: 0 <= k < |r| ==> r[k] == s[0]
    decreases n
  {
    if n <= 0 then "" else s + Repeat(s, n - 1)
  }
}
