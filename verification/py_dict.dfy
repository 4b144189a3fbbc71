/** The loops the plugins use to read a file line by line into a dictionary:
    each line yields a key/value pair, or nothing (a line the loop skips), or
    an error (a line whose unpacking raises, which abandons the whole loop).
 */
module PyDict {
  import opened Wrappers

  /** One key/value pair of a dictionary of strings. */
  type Pair = (string, string)

  /** The dictionary built by `d[key] = value` for each pair in order, so that
      a later pair for a key overwrites an earlier one. */
  function Dict(pairs: seq<Pair>): map<string, string>
    decreases |pairs|
  {
    if |pairs| == 0 then map[]
    else
      var p := pairs[|pairs| - 1];
      Dict(pairs[..|pairs| - 1])[p.0 := p.1]
  }

  /** A key is in the dictionary exactly when some pair has it. */
  lemma {:induction false} DictKeys(pairs: seq<Pair>, key: string)
    ensures key in Dict(pairs) <==> exists i :: 0 <= i < |pairs| && pairs[i].0 == key
    decreases |pairs|
  {
    if |pairs| > 0 {
      var init := pairs[..|pairs| - 1];
      DictKeys(init, key);
      if exists i :: 0 <= i < |init| && init[i].0 == key {
        var i :| 0 <= i < |init| && init[i].0 == key;
        assert pairs[i] == init[i];
      }
      if exists i :: 0 <= i < |pairs| && pairs[i].0 == key {
        var i :| 0 <= i < |pairs| && pairs[i].0 == key;
        if i < |init| {
          assert init[i] == pairs[i];
        }
      }
    }
  }

  /** A key maps to the value of the last pair that has it. */
  lemma {:induction false} DictLast(pairs: seq<Pair>, i: nat)
    requires i < |pairs|
    requires forall j :: i < j < |pairs| ==> pairs[j].0 != pairs[i].0
    ensures pairs[i].0 in Dict(pairs) && Dict(pairs)[pairs[i].0] == pairs[i].1
    decreases |pairs|
  {
    if i < |pairs| - 1 {
      var init := pairs[..|pairs| - 1];
      assert init[i] == pairs[i];
      forall j | i < j < |init|
        ensures init[j].0 != init[i].0
      {
        assert init[j] == pairs[j];
      }
      DictLast(init, i);
    }
  }

  /** Small dictionaries written out. */
  lemma {:induction false} DictTwo(a: Pair, b: Pair)
    requires a.0 != b.0
    ensures Dict([a, b]) == map[a.0 := a.1, b.0 := b.1]
  {
    assert [a, b][..1] == [a];
    assert [a][..0] == [];
    assert Dict([a]) == map[a.0 := a.1];
    assert Dict([a, b]) == Dict([a])[b.0 := b.1];
  }

  lemma {:induction false} DictThree(a: Pair, b: Pair, c: Pair)
    requires a.0 != b.0 && a.0 != c.0 && b.0 != c.0
    ensures Dict([a, b, c]) == map[a.0 := a.1, b.0 := b.1, c.0 := c.1]
  {
    assert [a, b, c][..2] == [a, b];
    DictTwo(a, b);
    assert Dict([a, b, c]) == Dict([a, b])[c.0 := c.1];
  }

  /** The items that are present, in order: what a loop that skips the
      other lines collects. */
  function Present<T>(items: seq<Option<T>>): (r: seq<T>)
    ensures |r| <= |items|
    decreases |items|
  {
    if |items| == 0 then []
    else
      var init := Present(items[..|items| - 1]);
      match items[|items| - 1]
      case None => init
      case Some(x) => init + [x]
  }

  /** Everything collected was present, and everything present is collected. */
  lemma {:induction false} PresentFrom<T>(items: seq<Option<T>>, x: T)
    ensures x in Present(items) <==> Some(x) in items
    decreases |items|
  {
    if |items| > 0 {
      var init := items[..|items| - 1];
      PresentFrom(init, x);
      assert items == init + [items[|items| - 1]];
    }
  }

  /** A present item appended last is collected last. */
  lemma {:induction false} PresentAppend<T>(items: seq<Option<T>>, x: T)
    ensures Present(items + [Some(x)]) == Present(items) + [x]
  {
    assert (items + [Some(x)])[..|items|] == items;
  }

  /** Every item, or `None` as soon as one is missing: what a loop that raises
      on a bad line yields. */
  function AllSome<T>(items: seq<Option<T>>): (r: Option<seq<T>>)
    ensures r.Some? <==> forall k :: 0 <= k < |items| ==> items[k].Some?
    ensures r.Some? ==> |r.value| == |items| && forall k :: 0 <= k < |items| ==> items[k] == Some(r.value[k])
    decreases |items|
  {
    if |items| == 0 then Some([])
    else
      var last := |items| - 1;
      match (AllSome(items[..last]), items[last])
      case (Some(xs), Some(x)) =>
        assert forall k :: 0 <= k < last ==> items[..last][k] == items[k];
        Some(xs + [x])
      case (None, _) =>
        assert exists k :: 0 <= k < last && items[..last][k].None?;
        None
      case (_, None) => None
  }

  /** When every item is present, they are all collected, in order. */
  lemma {:induction false} AllSomePresent<T>(items: seq<Option<T>>, xs: seq<T>)
    requires |items| == |xs| && forall k :: 0 <= k < |xs| ==> items[k] == Some(xs[k])
    ensures AllSome(items) == Some(xs)
  {
    assert forall k :: 0 <= k < |items| ==> items[k].Some?;
    var r := AllSome(items).value;
    assert |r| == |xs|;
    assert forall k :: 0 <= k < |xs| ==> r[k] == xs[k];
    assert r == xs;
  }
}
