/** The entry point: choosing the colour map, checking a user map's size, then rendering. */
module EntryPoint {
  import opened Errors
  import opened Coco
  import opened ColorAssignment
  import opened FilePaths
  import opened OverlayRenderer

  /**
   * The size check `run` makes on a user map: it must have as many entries as
   * there are categories, otherwise the run stops with a configuration error.
   */
  function CheckColorMap(colors: ColorMap, categories: seq<Category>): (r: Result<ColorMap>)
    ensures r.Ok? <==> |colors| == |categories|
    ensures r.Ok? ==> r.value == colors
    ensures r.Err? ==> r.error == ColorMapSizeMismatch(|colors|, |categories|)
  {
    if |colors| != |categories| then Err(ColorMapSizeMismatch(|colors|, |categories|)) else Ok(colors)
  }

  /** Distinct ids give as many ids as categories. */
  lemma {:induction false} DistinctIdCount(categories: seq<Category>)
    requires DistinctIds(categories)
    ensures |set c | c in categories :: c.id| == |categories|
    decreases |categories|
  {
    if categories != [] {
      var n := |categories|;
      var front := categories[..n - 1];
      DistinctIdCount(front);
      assert categories == front + [categories[n - 1]];
      var before := set c | c in front :: c.id;
      assert categories[n - 1].id !in before;
      assert (set c | c in categories :: c.id) == before + {categories[n - 1].id};
    }
  }

  /** A map with exactly one entry per category passes the size check. */
  lemma OneEntryPerCategoryAccepted(colors: ColorMap, categories: seq<Category>)
    requires DistinctIds(categories)
    requires colors.Keys == set c | c in categories :: c.id
    ensures CheckColorMap(colors, categories) == Ok(colors)
  {
    DistinctIdCount(categories);
  }

  /**
   * The check counts entries only: a map of the right size keyed by the wrong
   * id is accepted, and the run then fails on the first annotation whose
   * category has no colour.
   */
  lemma SizeCheckIgnoresKeys(cwd: string, destDir: string)
    ensures CheckColorMap(map[2 := "#00BEEF"], [Category(1, "box")]).Ok?
    ensures AnnotateAll([CocoImage(1, 10, 10, "imgs/a.png")], [Annotation(1, 1, 1, [], [2, 2, 4, 4], 0, 0, 16)],
                        map[2 := "#00BEEF"], cwd, destDir) == Outcome([], Some(MissingColor(1)))
  {
    var colors := map[2 := "#00BEEF"];
    var box := Annotation(1, 1, 1, [], [2, 2, 4, 4], 0, 0, 16);
    var image := CocoImage(1, 10, 10, "imgs/a.png");
    ScenarioFileName();
    assert DrawFor(box, colors) == Err(MissingColor(1));
    OneImageOneBoxFails(image, box, colors, cwd, destDir, "a.png");
  }

  /**
   * The size check as the script performs it: the option arrives as the raw
   * JSON text, so `len` counts its characters rather than its entries.
   */
  function CheckColorMapText(text: string, categories: seq<Category>): (r: Option<Error>)
    ensures r.None? <==> |text| == |categories|
    ensures r.Some? ==> r.value == ColorMapSizeMismatch(|text|, |categories|)
  {
    if |text| != |categories| then Some(ColorMapSizeMismatch(|text|, |categories|)) else None
  }

  /** The option text of a one-entry map is 16 characters long, so one category is refused. */
  lemma RawTextCheckRejectsOneEntryMap()
    ensures CheckColorMapText("{\"1\": \"#0000FF\"}", [Category(1, "box")]) == Some(ColorMapSizeMismatch(16, 1))
    ensures CheckColorMap(map[1 := "#0000FF"], [Category(1, "box")]) == Ok(map[1 := "#0000FF"])
  {
  }

  /**
   * `run`, after the dataset is loaded: with no user map the default one is
   * built; a user map of the wrong size stops the run before any image is
   * processed; otherwise the images are annotated with the chosen map.
   */
  method Run(ds: Dataset, userColors: Option<ColorMap>, draws: seq<nat>, cwd: string, destDir: string)
    returns (saved: seq<SavedImage>, failure: Option<Error>)
    requires ValidDraws(draws)
    requires userColors.None? && |ds.categories| > |BaseColors| ==> |draws| == |ds.categories|
    ensures userColors.Some? && |userColors.value| != |ds.categories| ==>
      saved == [] && failure == Some(ColorMapSizeMismatch(|userColors.value|, |ds.categories|))
    ensures userColors.Some? && |userColors.value| == |ds.categories| ==>
      Outcome(saved, failure) == AnnotateAll(ds.images, ds.annotations, userColors.value, cwd, destDir)
    ensures userColors.None? ==>
      Outcome(saved, failure) == AnnotateAll(ds.images, ds.annotations, DefaultColorMapSpec(ds.categories, draws), cwd, destDir)
  {
    var colors: ColorMap;
    if userColors.None? {
      colors := DefaultColorMap(ds.categories, draws);
    } else {
      var checked := CheckColorMap(userColors.value, ds.categories);
      if checked.Err? {
        saved, failure := [], Some(checked.error);
        return;
      }
      colors := checked.value;
    }
    saved, failure := AnnotateAndWrite(ds, colors, cwd, destDir);
  }

  /** The file name used by the scenarios below. */
  lemma ScenarioFileName()
    ensures SecondSegment("imgs/a.png") == Ok("a.png")
  {
    SecondSegmentOf("imgs", "a.png", "");
    assert "imgs/a.png" == "imgs" + [Slash] + "a.png" + "";
  }

  /** A run over one image whose one annotation cannot be drawn saves nothing and reports that annotation's error. */
  lemma OneImageOneBoxFails(image: CocoImage, box: Annotation, colors: ColorMap, cwd: string, destDir: string, name: string)
    requires box.imageId == image.id
    requires SecondSegment(image.fileName) == Ok(name)
    requires DrawFor(box, colors).Err?
    ensures AnnotateAll([image], [box], colors, cwd, destDir) == Outcome([], Some(DrawFor(box, colors).error))
  {
    assert [box][..0] == [];
    assert Rectangles([], image.id, colors) == Ok([]);
    assert Rectangles([box], image.id, colors) == Err(DrawFor(box, colors).error);
    assert AnnotateImage(image, [box], colors, cwd, destDir) == Err(DrawFor(box, colors).error);
    assert [image][..0] == [];
    assert AnnotateAll([], [box], colors, cwd, destDir) == Outcome([], None);
  }

  /** A run over one image with one annotation of it draws that annotation's rectangle and saves one copy. */
  lemma OneImageOneBox(image: CocoImage, box: Annotation, colors: ColorMap, cwd: string, destDir: string, name: string)
    requires box.imageId == image.id
    requires SecondSegment(image.fileName) == Ok(name)
    requires DrawFor(box, colors).Ok?
    ensures AnnotateAll([image], [box], colors, cwd, destDir) ==
      Outcome([SavedImage(OutputPath(cwd, destDir, name), [DrawFor(box, colors).value])], None)
  {
    var r := DrawFor(box, colors).value;
    assert [box][..0] == [];
    assert Rectangles([], image.id, colors) == Ok([]);
    assert [] + [r] == [r];
    assert Rectangles([box], image.id, colors) == Ok([r]);
    assert AnnotateImage(image, [box], colors, cwd, destDir) == Ok(SavedImage(OutputPath(cwd, destDir, name), [r]));
    assert [image][..0] == [];
    assert AnnotateAll([], [box], colors, cwd, destDir) == Outcome([], None);
  }

  /**
   * One category, one 10x10 image "imgs/a.png" and one box [2, 2, 4, 4], with
   * the default map (`OneCategoryGetsBlue`): the run saves "a.png" under the
   * output directory with one blue rectangle from (2, 2) to (6, 6).
   */
  lemma SingleBoxScenario(cwd: string, destDir: string)
    ensures AnnotateAll([CocoImage(1, 10, 10, "imgs/a.png")], [Annotation(1, 1, 1, [], [2, 2, 4, 4], 0, 0, 16)],
                        map[1 := "#0000FF"], cwd, destDir) ==
      Outcome([SavedImage(cwd + "/" + destDir + "/a.png",
                [Rectangle(Corners(2, 2, 6, 6), Paint("#0000FF", 50), Paint("#0000FF", 255), 3)])], None)
  {
    var colors := map[1 := "#0000FF"];
    var box := Annotation(1, 1, 1, [], [2, 2, 4, 4], 0, 0, 16);
    var image := CocoImage(1, 10, 10, "imgs/a.png");
    ScenarioFileName();
    ScenarioSteps(cwd, destDir);
    OneImageOneBox(image, box, colors, cwd, destDir, "a.png");
  }

  /** The rectangle and the save path of the single-box scenario. */
  lemma ScenarioSteps(cwd: string, destDir: string)
    ensures DrawFor(Annotation(1, 1, 1, [], [2, 2, 4, 4], 0, 0, 16), map[1 := "#0000FF"]) ==
      Ok(Rectangle(Corners(2, 2, 6, 6), Paint("#0000FF", 50), Paint("#0000FF", 255), 3))
    ensures OutputPath(cwd, destDir, "a.png") == cwd + "/" + destDir + "/a.png"
  {
    assert [Slash] + "a.png" == "/a.png";
  }
}
