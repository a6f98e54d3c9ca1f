/** Colour assignment: the default colour map built from the category list. */
module ColorAssignment {
  import opened Coco
  import opened HexFormat

  /** Category id to colour string. */
  type ColorMap = map<int, string>

  /** The fixed palette used when there are few categories. */
  const BaseColors: seq<string> := [
    "#0000FF",
    "#FF0000",
    "#FFFF00",
    "#FF6600",
    "#00FF00",
    "#6600FF",
    "#000000",
    "#FFFFFF"
  ]

  /** Upper bound of each random draw (`random.randint(0, 0xFFFFFF)`). */
  const MaxColorCode: nat := 0xFFFFFF

  /** Draws that `random.randint(0, 0xFFFFFF)` could have produced. */
  predicate ValidDraws(draws: seq<nat>)
  {
    forall k :: 0 <= k < |draws| ==> draws[k] <= MaxColorCode
  }

  function Min(a: nat, b: nat): nat
  {
    if a <= b then a else b
  }

  /**
   * `dict(zip(keys, values))`: pairs are taken up to the shorter sequence, in
   * order, so a later pair overrides an earlier one with the same key.
   */
  function ZipToMap(keys: seq<int>, values: seq<string>): ColorMap
    decreases |keys|
  {
    var n := Min(|keys|, |values|);
    if n == 0 then map[] else ZipToMap(keys[..n - 1], values[..n - 1])[keys[n - 1] := values[n - 1]]
  }

  /** The colour strings of the random branch, one per draw. */
  function RandomColors(draws: seq<nat>): (colors: seq<string>)
  {
    seq(|draws|, k requires 0 <= k < |draws| => Format06x(draws[k]))
  }

  /** What `get_default_color_map` returns, the random draws being given. */
  function DefaultColorMapSpec(categories: seq<Category>, draws: seq<nat>): ColorMap
  {
    if |categories| <= |BaseColors| then ZipToMap(CategoryIds(categories), BaseColors)
    else ZipToMap(CategoryIds(categories), RandomColors(draws))
  }

  /** The keys of `dict(zip(keys, values))` are the keys that found a partner. */
  lemma {:induction false} ZipKeys(keys: seq<int>, values: seq<string>)
    ensures ZipToMap(keys, values).Keys == set k | 0 <= k < Min(|keys|, |values|) :: keys[k]
    decreases |keys|
  {
    var n := Min(|keys|, |values|);
    if n > 0 {
      var prefix := keys[..n - 1];
      ZipKeys(prefix, values[..n - 1]);
      var before := set k | 0 <= k < n - 1 :: prefix[k];
      assert before == set k | 0 <= k < n - 1 :: keys[k];
      assert (set k | 0 <= k < n :: keys[k]) == before + {keys[n - 1]};
    }
  }

  /** Every value of `dict(zip(keys, values))` is one of the paired values. */
  lemma {:induction false} ZipValues(keys: seq<int>, values: seq<string>, key: int)
    requires key in ZipToMap(keys, values)
    ensures exists k :: 0 <= k < Min(|keys|, |values|) && ZipToMap(keys, values)[key] == values[k]
    decreases |keys|
  {
    var n := Min(|keys|, |values|);
    if key != keys[n - 1] {
      ZipValues(keys[..n - 1], values[..n - 1], key);
      var k :| 0 <= k < n - 1 && ZipToMap(keys[..n - 1], values[..n - 1])[key] == values[..n - 1][k];
      assert ZipToMap(keys, values)[key] == values[k];
    }
  }

  /** The key of the k-th pair maps to the k-th value unless a later pair repeats that key. */
  lemma {:induction false} ZipLookup(keys: seq<int>, values: seq<string>, k: nat)
    requires k < Min(|keys|, |values|)
    requires forall j :: k < j < Min(|keys|, |values|) ==> keys[j] != keys[k]
    ensures keys[k] in ZipToMap(keys, values) && ZipToMap(keys, values)[keys[k]] == values[k]
    decreases |keys|
  {
    var n := Min(|keys|, |values|);
    if k < n - 1 {
      ZipLookup(keys[..n - 1], values[..n - 1], k);
    }
  }

  /** With distinct keys, every pair makes its own entry. */
  lemma {:induction false} ZipSize(keys: seq<int>, values: seq<string>)
    requires forall i, j :: 0 <= i < j < Min(|keys|, |values|) ==> keys[i] != keys[j]
    ensures |ZipToMap(keys, values)| == Min(|keys|, |values|)
    decreases |keys|
  {
    var n := Min(|keys|, |values|);
    if n > 0 {
      ZipSize(keys[..n - 1], values[..n - 1]);
      ZipKeys(keys[..n - 1], values[..n - 1]);
      assert keys[n - 1] !in ZipToMap(keys[..n - 1], values[..n - 1]);
    }
  }

  /** The category ids of a list are the keys the default map can have. */
  lemma IdsOfCategories(categories: seq<Category>)
    ensures (set k | 0 <= k < |categories| :: CategoryIds(categories)[k]) == set c | c in categories :: c.id
  {
    var ids := CategoryIds(categories);
    var idSet := set c | c in categories :: c.id;
    forall id | id in idSet
      ensures id in set k | 0 <= k < |categories| :: ids[k]
    {
      var c :| c in categories && c.id == id;
      var k :| 0 <= k < |categories| && categories[k] == c;
      assert ids[k] == id;
    }
  }

  /**
   * Shape of the default map: one key per category id; palette strings ("#"
   * and six digits) when there are at most eight categories, otherwise six
   * lower-case hex digits with no "#".
   */
  lemma DefaultColorMapShape(categories: seq<Category>, draws: seq<nat>)
    requires ValidDraws(draws)
    requires |categories| > |BaseColors| ==> |draws| == |categories|
    ensures DefaultColorMapSpec(categories, draws).Keys == set c | c in categories :: c.id
    ensures |categories| <= |BaseColors| ==>
      forall id :: id in DefaultColorMapSpec(categories, draws) ==>
        DefaultColorMapSpec(categories, draws)[id] in BaseColors
    ensures |categories| <= |BaseColors| ==>
      forall id :: id in DefaultColorMapSpec(categories, draws) ==>
        |DefaultColorMapSpec(categories, draws)[id]| == 7 && DefaultColorMapSpec(categories, draws)[id][0] == '#'
    ensures |categories| > |BaseColors| ==>
      forall id :: id in DefaultColorMapSpec(categories, draws) ==>
        |DefaultColorMapSpec(categories, draws)[id]| == 6 && IsLowerHex(DefaultColorMapSpec(categories, draws)[id])
  {
    var ids := CategoryIds(categories);
    var values := if |categories| <= |BaseColors| then BaseColors else RandomColors(draws);
    var m := DefaultColorMapSpec(categories, draws);
    assert m == ZipToMap(ids, values);
    assert Min(|ids|, |values|) == |categories|;
    ZipKeys(ids, values);
    IdsOfCategories(categories);
    forall id | id in m
      ensures |categories| <= |BaseColors| ==> m[id] in BaseColors && |m[id]| == 7 && m[id][0] == '#'
      ensures |categories| > |BaseColors| ==> |m[id]| == 6 && IsLowerHex(m[id])
    {
      ZipValues(ids, values, id);
      var k :| 0 <= k < |categories| && m[id] == values[k];
      if |categories| > |BaseColors| {
        ColorCodeFormat(draws[k]);
      }
    }
  }

  /**
   * `get_default_color_map`: with at most eight categories the palette is zipped
   * against the category ids; otherwise each category in turn gets the next
   * random draw formatted with "%06x".
   */
  method DefaultColorMap(categories: seq<Category>, draws: seq<nat>) returns (colors: ColorMap)
    requires ValidDraws(draws)
    requires |categories| > |BaseColors| ==> |draws| == |categories|
    ensures colors == DefaultColorMapSpec(categories, draws)
    ensures colors.Keys == set c | c in categories :: c.id
    ensures |categories| <= |BaseColors| ==>
      forall id :: id in colors ==> colors[id] in BaseColors && |colors[id]| == 7 && colors[id][0] == '#'
    ensures |categories| > |BaseColors| ==>
      forall id :: id in colors ==> |colors[id]| == 6 && IsLowerHex(colors[id])
  {
    if |categories| <= |BaseColors| {
      colors := ZipToMap(CategoryIds(categories), BaseColors);
    } else {
      ghost var ids := CategoryIds(categories);
      ghost var random := RandomColors(draws);
      colors := map[];
      var k := 0;
      while k < |categories|
        invariant 0 <= k <= |categories|
        invariant colors == ZipToMap(ids[..k], random[..k])
      {
        assert ids[..k + 1][..k] == ids[..k] && random[..k + 1][..k] == random[..k];
        assert ZipToMap(ids[..k + 1], random[..k + 1]) == ZipToMap(ids[..k], random[..k])[ids[k] := random[k]];
        colors := colors[categories[k].id := Format06x(draws[k])];
        k := k + 1;
      }
      assert ids[..k] == ids && random[..k] == random;
    }
    DefaultColorMapShape(categories, draws);
  }

  /** No colour appears twice in the palette. */
  lemma PaletteDistinct()
    ensures forall j, k :: 0 <= j < k < |BaseColors| ==> BaseColors[j] != BaseColors[k]
  {
  }

  /**
   * Palette branch with distinct ids: one entry per category, the k-th listed
   * category gets the k-th palette colour, no colour is used twice, and the
   * palette entries past the category count are unused.
   */
  lemma PaletteInListedOrder(categories: seq<Category>)
    requires |categories| <= |BaseColors| && DistinctIds(categories)
    ensures |DefaultColorMapSpec(categories, [])| == |categories|
    ensures forall k :: 0 <= k < |categories| ==>
      categories[k].id in DefaultColorMapSpec(categories, []) &&
      DefaultColorMapSpec(categories, [])[categories[k].id] == BaseColors[k]
    ensures forall j, k :: 0 <= j < k < |categories| ==>
      DefaultColorMapSpec(categories, [])[categories[j].id] != DefaultColorMapSpec(categories, [])[categories[k].id]
    ensures forall j :: |categories| <= j < |BaseColors| ==> BaseColors[j] !in DefaultColorMapSpec(categories, []).Values
  {
    var ids := CategoryIds(categories);
    var m := DefaultColorMapSpec(categories, []);
    assert Min(|ids|, |BaseColors|) == |categories|;
    PaletteDistinct();
    ZipSize(ids, BaseColors);
    forall k | 0 <= k < |categories|
      ensures categories[k].id in m && m[categories[k].id] == BaseColors[k]
    {
      ZipLookup(ids, BaseColors, k);
    }
    forall j | |categories| <= j < |BaseColors|
      ensures BaseColors[j] !in m.Values
    {
      forall id | id in m
        ensures m[id] != BaseColors[j]
      {
        ZipValues(ids, BaseColors, id);
      }
    }
  }

  /** A single category gets the first palette colour. */
  lemma OneCategoryGetsBlue()
    ensures DefaultColorMapSpec([Category(1, "box")], []) == map[1 := "#0000FF"]
  {
    assert CategoryIds([Category(1, "box")]) == [1];
    assert ZipToMap([1], BaseColors) == map[1 := "#0000FF"] by {
      assert Min(1, |BaseColors|) == 1;
      assert [1][..0] == [];
    }
  }

  /**
   * Random branch with distinct ids: one entry per category, and the k-th
   * category's colour reads back as the k-th draw, so distinct draws give
   * distinct colours.
   */
  lemma RandomColorsEncodeDraws(categories: seq<Category>, draws: seq<nat>)
    requires |categories| > |BaseColors| && |draws| == |categories|
    requires ValidDraws(draws) && DistinctIds(categories)
    ensures |DefaultColorMapSpec(categories, draws)| == |categories|
    ensures forall k :: 0 <= k < |categories| ==>
      categories[k].id in DefaultColorMapSpec(categories, draws) &&
      DefaultColorMapSpec(categories, draws)[categories[k].id] == Format06x(draws[k]) &&
      IsLowerHex(Format06x(draws[k])) &&
      ParseHex(Format06x(draws[k])) == draws[k]
  {
    var ids := CategoryIds(categories);
    var random := RandomColors(draws);
    assert Min(|ids|, |random|) == |categories|;
    ZipSize(ids, random);
    forall k | 0 <= k < |categories|
      ensures categories[k].id in DefaultColorMapSpec(categories, draws)
      ensures DefaultColorMapSpec(categories, draws)[categories[k].id] == Format06x(draws[k])
      ensures IsLowerHex(Format06x(draws[k])) && ParseHex(Format06x(draws[k])) == draws[k]
    {
      ZipLookup(ids, random, k);
      ColorCodeFormat(draws[k]);
    }
  }
}
