/**
 * Overlay rendering as a plan: for each image, the rectangles drawn on its
 * transparent overlay and the path its composited copy is saved to. Pixels
 * are not modelled; a rectangle is recorded with the parameters it is drawn with.
 */
module OverlayRenderer {
  import opened Errors
  import opened Coco
  import opened ColorAssignment
  import opened FilePaths

  /** Alpha of a rectangle's fill. */
  const FillAlpha: nat := 50
  /** Alpha of a colour given without one (the outline). */
  const Opaque: nat := 255
  /** Outline stroke width in pixels. */
  const OutlineWidth: nat := 3

  /** A rectangle in the corner form `[x0, y0, x1, y1]` that drawing takes. */
  datatype Corners = Corners(x0: int, y0: int, x1: int, y1: int)

  /** A colour-map colour together with the alpha it is drawn at. */
  datatype Paint = Paint(color: string, alpha: nat)

  /** One `draw.rectangle(corners, fill=…, outline=…, width=…)` call on the overlay. */
  datatype DrawCommand = Rectangle(corners: Corners, fill: Paint, outline: Paint, width: nat)

  /** One image's copy: where it is saved and the rectangles drawn on its overlay, in order. */
  datatype SavedImage = SavedImage(path: string, rectangles: seq<DrawCommand>)

  /** What a run leaves behind: the copies saved before it stopped, and why it stopped, if it did. */
  datatype Outcome = Outcome(saved: seq<SavedImage>, failure: Option<Error>)

  /** The box `[x, y, width, height]` that corner form `c` stands for. */
  function BoxOf(c: Corners): seq<int>
  {
    [c.x0, c.y0, c.x1 - c.x0, c.y1 - c.y0]
  }

  /**
   * `[bbox[0], bbox[1], bbox[0] + bbox[2], bbox[1] + bbox[3]]`, an IndexError
   * when the list holds fewer than four numbers.
   */
  function ToCorners(annotationId: int, bbox: seq<int>): (r: Result<Corners>)
    ensures r.Ok? <==> |bbox| >= 4
    ensures r.Err? ==> r.error == ShortBbox(annotationId, |bbox|)
    ensures r.Ok? ==> BoxOf(r.value) == bbox[..4]
    ensures r.Ok? && bbox[2] >= 0 && bbox[3] >= 0 ==> r.value.x0 <= r.value.x1 && r.value.y0 <= r.value.y1
  {
    if |bbox| < 4 then Err(ShortBbox(annotationId, |bbox|))
    else Ok(Corners(bbox[0], bbox[1], bbox[0] + bbox[2], bbox[1] + bbox[3]))
  }

  /** Corner form and box form are inverse to each other. */
  lemma CornersRoundTrip(annotationId: int, c: Corners)
    ensures ToCorners(annotationId, BoxOf(c)) == Ok(c)
  {
  }

  /**
   * The rectangle one annotation draws: its box in corner form, filled with its
   * category's colour at alpha 50, outlined with that colour opaque, 3 pixels wide.
   * The box is converted before the colour is looked up, so a short box is
   * reported first.
   */
  function DrawFor(a: Annotation, colors: ColorMap): (r: Result<DrawCommand>)
    ensures r.Ok? <==> |a.bbox| >= 4 && a.categoryId in colors
    ensures r.Err? ==> r.error == if |a.bbox| < 4 then ShortBbox(a.id, |a.bbox|) else MissingColor(a.categoryId)
  {
    match ToCorners(a.id, a.bbox)
    case Err(e) => Err(e)
    case Ok(corners) =>
      if a.categoryId !in colors then Err(MissingColor(a.categoryId))
      else
        var color := colors[a.categoryId];
        Ok(Rectangle(corners, Paint(color, FillAlpha), Paint(color, Opaque), OutlineWidth))
  }

  /** Every rectangle is drawn in its annotation's category colour with the fixed alphas and width. */
  lemma DrawForStyle(a: Annotation, colors: ColorMap)
    requires DrawFor(a, colors).Ok?
    ensures a.categoryId in colors
    ensures DrawFor(a, colors).value.fill == Paint(colors[a.categoryId], 50)
    ensures DrawFor(a, colors).value.outline == Paint(colors[a.categoryId], 255)
    ensures DrawFor(a, colors).value.width == 3
    ensures ToCorners(a.id, a.bbox) == Ok(DrawFor(a, colors).value.corners)
  {
  }

  /** The annotations of image `imageId`, in annotation-list order. */
  function Selected(annotations: seq<Annotation>, imageId: int): seq<Annotation>
    decreases |annotations|
  {
    if annotations == [] then []
    else
      var n := |annotations|;
      var last := annotations[n - 1];
      Selected(annotations[..n - 1], imageId) + (if last.imageId == imageId then [last] else [])
  }

  /** Selection keeps exactly the annotations whose `image_id` is the image's id. */
  lemma {:induction false} SelectedMembers(annotations: seq<Annotation>, imageId: int)
    ensures forall a :: a in Selected(annotations, imageId) <==> a in annotations && a.imageId == imageId
    decreases |annotations|
  {
    if annotations != [] {
      var n := |annotations|;
      SelectedMembers(annotations[..n - 1], imageId);
      assert annotations == annotations[..n - 1] + [annotations[n - 1]];
    }
  }

  /** Selection distributes over concatenation, so it keeps the annotations in list order. */
  lemma {:induction false} SelectedAppend(front: seq<Annotation>, back: seq<Annotation>, imageId: int)
    ensures Selected(front + back, imageId) == Selected(front, imageId) + Selected(back, imageId)
    decreases |back|
  {
    if back == [] {
      assert front + back == front;
    } else {
      var n := |back|;
      SelectedAppend(front, back[..n - 1], imageId);
      assert (front + back)[..|front + back| - 1] == front + back[..n - 1];
    }
  }

  /**
   * An annotation of the image is selected as many times as it is listed, and
   * one of another image never: a listed duplicate is drawn twice.
   */
  lemma {:induction false} SelectedCounts(annotations: seq<Annotation>, imageId: int)
    ensures forall a :: multiset(Selected(annotations, imageId))[a] ==
                        (if a.imageId == imageId then multiset(annotations)[a] else 0)
    decreases |annotations|
  {
    if annotations != [] {
      var n := |annotations|;
      var front := annotations[..n - 1];
      SelectedCounts(front, imageId);
      assert annotations == front + [annotations[n - 1]];
      assert multiset(annotations) == multiset(front) + multiset{annotations[n - 1]};
    }
  }

  /** Every one of `selected` can be drawn: its box has four numbers and its category a colour. */
  predicate AllDrawable(selected: seq<Annotation>, colors: ColorMap)
  {
    forall k :: 0 <= k < |selected| ==> DrawFor(selected[k], colors).Ok?
  }

  /**
   * The inner loop of `annotate_and_write` for one image: the rectangles drawn
   * for the annotations of that image, stopping at the first failure.
   */
  function Rectangles(annotations: seq<Annotation>, imageId: int, colors: ColorMap): Result<seq<DrawCommand>>
    decreases |annotations|
  {
    if annotations == [] then Ok([])
    else
      var n := |annotations|;
      var a := annotations[n - 1];
      match Rectangles(annotations[..n - 1], imageId, colors)
      case Err(e) => Err(e)
      case Ok(drawn) =>
        if a.imageId != imageId then Ok(drawn)
        else
          match DrawFor(a, colors)
          case Err(e) => Err(e)
          case Ok(r) => Ok(drawn + [r])
  }

  /** `selected[k]` is the first of `selected` that cannot be drawn. */
  predicate FirstUndrawable(selected: seq<Annotation>, colors: ColorMap, k: int)
  {
    && 0 <= k < |selected|
    && DrawFor(selected[k], colors).Err?
    && forall j :: 0 <= j < k ==> DrawFor(selected[j], colors).Ok?
  }

  /**
   * The rectangles drawn on an image are exactly those of its selected
   * annotations, one each and in order; drawing fails exactly when one of
   * them cannot be drawn, and then with the first such annotation's error.
   */
  lemma {:induction false} RectanglesMeaning(annotations: seq<Annotation>, imageId: int, colors: ColorMap)
    ensures Rectangles(annotations, imageId, colors).Ok? <==> AllDrawable(Selected(annotations, imageId), colors)
    ensures var sel := Selected(annotations, imageId);
      Rectangles(annotations, imageId, colors).Ok? ==>
        |Rectangles(annotations, imageId, colors).value| == |sel| &&
        forall k :: 0 <= k < |sel| ==> Rectangles(annotations, imageId, colors).value[k] == DrawFor(sel[k], colors).value
    ensures var sel := Selected(annotations, imageId);
      Rectangles(annotations, imageId, colors).Err? ==>
        exists k :: FirstUndrawable(sel, colors, k) && Rectangles(annotations, imageId, colors).error == DrawFor(sel[k], colors).error
    decreases |annotations|
  {
    if annotations != [] {
      var n := |annotations|;
      var a := annotations[n - 1];
      var front := annotations[..n - 1];
      RectanglesMeaning(front, imageId, colors);
      var selFront := Selected(front, imageId);
      var sel := Selected(annotations, imageId);
      var before := Rectangles(front, imageId, colors);
      var r := Rectangles(annotations, imageId, colors);
      if a.imageId != imageId {
        assert sel == selFront;
        assert r == before;
      } else {
        assert sel == selFront + [a];
        assert forall k :: 0 <= k < |selFront| ==> sel[k] == selFront[k];
        assert sel[|selFront|] == a;
        if before.Err? {
          assert r == before;
          var k :| FirstUndrawable(selFront, colors, k) && before.error == DrawFor(selFront[k], colors).error;
          assert FirstUndrawable(sel, colors, k);
        } else if DrawFor(a, colors).Err? {
          assert r == Err(DrawFor(a, colors).error);
          assert FirstUndrawable(sel, colors, |selFront|);
        } else {
          assert r == Ok(before.value + [DrawFor(a, colors).value]);
        }
      }
    }
  }

  /** One more annotation: the rectangles so far, plus this one's if it belongs to the image. */
  lemma RectanglesStep(annotations: seq<Annotation>, j: nat, imageId: int, colors: ColorMap, drawn: seq<DrawCommand>)
    requires j < |annotations|
    requires Rectangles(annotations[..j], imageId, colors) == Ok(drawn)
    ensures annotations[j].imageId != imageId ==> Rectangles(annotations[..j + 1], imageId, colors) == Ok(drawn)
    ensures annotations[j].imageId == imageId && DrawFor(annotations[j], colors).Ok? ==>
      Rectangles(annotations[..j + 1], imageId, colors) == Ok(drawn + [DrawFor(annotations[j], colors).value])
    ensures annotations[j].imageId == imageId && DrawFor(annotations[j], colors).Err? ==>
      Rectangles(annotations[..j + 1], imageId, colors) == Err(DrawFor(annotations[j], colors).error)
  {
    assert annotations[..j + 1][..j] == annotations[..j];
  }

  /** Once drawing has failed on a prefix of the annotations, the later ones change nothing. */
  lemma {:induction false} RectanglesFailureStays(annotations: seq<Annotation>, k: nat, imageId: int, colors: ColorMap)
    requires k <= |annotations|
    requires Rectangles(annotations[..k], imageId, colors).Err?
    ensures Rectangles(annotations, imageId, colors) == Rectangles(annotations[..k], imageId, colors)
    decreases |annotations| - k
  {
    if k < |annotations| {
      var n := |annotations|;
      assert annotations[..n - 1][..k] == annotations[..k];
      RectanglesFailureStays(annotations[..n - 1], k, imageId, colors);
      var before := Rectangles(annotations[..n - 1], imageId, colors);
      assert before.Err?;
      assert Rectangles(annotations, imageId, colors) == before;
    } else {
      assert annotations[..k] == annotations;
    }
  }

  /**
   * One pass of the outer loop: the output name is taken from `file_name`
   * first, then the image's rectangles are drawn and the copy saved under
   * `<cwd>/<destDir>/<name>`.
   */
  function AnnotateImage(image: CocoImage, annotations: seq<Annotation>, colors: ColorMap, cwd: string, destDir: string): Result<SavedImage>
  {
    match SecondSegment(image.fileName)
    case Err(e) => Err(e)
    case Ok(name) =>
      match Rectangles(annotations, image.id, colors)
      case Err(e) => Err(e)
      case Ok(drawn) => Ok(SavedImage(OutputPath(cwd, destDir, name), drawn))
  }

  /**
   * One image's copy is saved exactly when its file name has a "/" and all of
   * its annotations can be drawn; the copy goes to `<cwd>/<destDir>/<second
   * piece of file_name>` and holds one rectangle per annotation of the image,
   * in annotation-list order. A name without "/" fails before any annotation
   * is looked at.
   */
  lemma AnnotateImageMeaning(image: CocoImage, annotations: seq<Annotation>, colors: ColorMap, cwd: string, destDir: string)
    ensures AnnotateImage(image, annotations, colors, cwd, destDir).Ok? <==>
      Slash in image.fileName && AllDrawable(Selected(annotations, image.id), colors)
    ensures Slash !in image.fileName ==>
      AnnotateImage(image, annotations, colors, cwd, destDir) == Err(MissingPathSegment(image.fileName))
    ensures AnnotateImage(image, annotations, colors, cwd, destDir).Ok? ==>
      AnnotateImage(image, annotations, colors, cwd, destDir).value.path ==
        OutputPath(cwd, destDir, SecondSegment(image.fileName).value)
    ensures AnnotateImage(image, annotations, colors, cwd, destDir).Ok? ==>
      |AnnotateImage(image, annotations, colors, cwd, destDir).value.rectangles| == |Selected(annotations, image.id)| &&
      forall k :: 0 <= k < |Selected(annotations, image.id)| ==>
        AnnotateImage(image, annotations, colors, cwd, destDir).value.rectangles[k] ==
          DrawFor(Selected(annotations, image.id)[k], colors).value
  {
    RectanglesMeaning(annotations, image.id, colors);
  }

  /** `annotate_and_write`: the images in listed order, the run stopping at the first failure. */
  function AnnotateAll(images: seq<CocoImage>, annotations: seq<Annotation>, colors: ColorMap, cwd: string, destDir: string): Outcome
    decreases |images|
  {
    if images == [] then Outcome([], None)
    else
      var n := |images|;
      var before := AnnotateAll(images[..n - 1], annotations, colors, cwd, destDir);
      if before.failure.Some? then before
      else
        match AnnotateImage(images[n - 1], annotations, colors, cwd, destDir)
        case Err(e) => Outcome(before.saved, Some(e))
        case Ok(copy) => Outcome(before.saved + [copy], None)
  }

  /** One more image, the run so far having saved `saved` without failing. */
  lemma AnnotateAllStep(images: seq<CocoImage>, i: nat, annotations: seq<Annotation>, colors: ColorMap, cwd: string, destDir: string, saved: seq<SavedImage>)
    requires i < |images|
    requires AnnotateAll(images[..i], annotations, colors, cwd, destDir) == Outcome(saved, None)
    ensures AnnotateImage(images[i], annotations, colors, cwd, destDir).Err? ==>
      AnnotateAll(images[..i + 1], annotations, colors, cwd, destDir) ==
        Outcome(saved, Some(AnnotateImage(images[i], annotations, colors, cwd, destDir).error))
    ensures AnnotateImage(images[i], annotations, colors, cwd, destDir).Ok? ==>
      AnnotateAll(images[..i + 1], annotations, colors, cwd, destDir) ==
        Outcome(saved + [AnnotateImage(images[i], annotations, colors, cwd, destDir).value], None)
  {
    assert images[..i + 1][..i] == images[..i];
  }

  /** Once the run has failed on a prefix of the images, the later ones change nothing. */
  lemma {:induction false} AnnotateAllFailureStays(images: seq<CocoImage>, k: nat, annotations: seq<Annotation>, colors: ColorMap, cwd: string, destDir: string)
    requires k <= |images|
    requires AnnotateAll(images[..k], annotations, colors, cwd, destDir).failure.Some?
    ensures AnnotateAll(images, annotations, colors, cwd, destDir) == AnnotateAll(images[..k], annotations, colors, cwd, destDir)
    decreases |images| - k
  {
    if k < |images| {
      var n := |images|;
      assert images[..n - 1][..k] == images[..k];
      AnnotateAllFailureStays(images[..n - 1], k, annotations, colors, cwd, destDir);
      var before := AnnotateAll(images[..n - 1], annotations, colors, cwd, destDir);
      assert before.failure.Some?;
      assert AnnotateAll(images, annotations, colors, cwd, destDir) == before;
    } else {
      assert images[..k] == images;
    }
  }

  /**
   * A run either saves one copy per image, the i-th being image i's, or saves
   * the copies of the images before the first one that fails, and reports
   * that image's error.
   */
  lemma {:induction false} AnnotateAllMeaning(images: seq<CocoImage>, annotations: seq<Annotation>, colors: ColorMap, cwd: string, destDir: string)
    ensures var out := AnnotateAll(images, annotations, colors, cwd, destDir);
      out.failure.None? ==>
        |out.saved| == |images| &&
        forall i :: 0 <= i < |images| ==> AnnotateImage(images[i], annotations, colors, cwd, destDir) == Ok(out.saved[i])
    ensures var out := AnnotateAll(images, annotations, colors, cwd, destDir);
      out.failure.Some? ==>
        |out.saved| < |images| &&
        (forall i :: 0 <= i < |out.saved| ==> AnnotateImage(images[i], annotations, colors, cwd, destDir) == Ok(out.saved[i])) &&
        AnnotateImage(images[|out.saved|], annotations, colors, cwd, destDir) == Err(out.failure.value)
    decreases |images|
  {
    if images != [] {
      var n := |images|;
      var front := images[..n - 1];
      AnnotateAllMeaning(front, annotations, colors, cwd, destDir);
      var before := AnnotateAll(front, annotations, colors, cwd, destDir);
      var out := AnnotateAll(images, annotations, colors, cwd, destDir);
      assert forall i :: 0 <= i < n - 1 ==> front[i] == images[i];
      if before.failure.Some? {
        assert out == before;
      } else {
        var last := AnnotateImage(images[n - 1], annotations, colors, cwd, destDir);
        if last.Err? {
          assert out == Outcome(before.saved, Some(last.error));
        } else {
          assert out == Outcome(before.saved + [last.value], None);
        }
      }
    }
  }

  /**
   * `annotate_and_write`: for each image, its output name, then a pass over
   * all annotations drawing a rectangle for each one of that image, then the
   * copy saved. Any failure ends the run; copies already saved stay saved.
   */
  method AnnotateAndWrite(ds: Dataset, colors: ColorMap, cwd: string, destDir: string)
    returns (saved: seq<SavedImage>, failure: Option<Error>)
    ensures Outcome(saved, failure) == AnnotateAll(ds.images, ds.annotations, colors, cwd, destDir)
  {
    var images, annotations := ds.images, ds.annotations;
    saved, failure := [], None;
    var i := 0;
    while i < |images|
      invariant 0 <= i <= |images|
      invariant AnnotateAll(images[..i], annotations, colors, cwd, destDir) == Outcome(saved, None)
    {
      var image := images[i];
      AnnotateAllStep(images, i, annotations, colors, cwd, destDir, saved);
      var name := SecondSegment(image.fileName);
      var drawn: seq<DrawCommand> := [];
      var stop: Option<Error> := if name.Err? then Some(name.error) else None;
      var j := 0;
      while j < |annotations| && stop.None?
        invariant 0 <= j <= |annotations|
        invariant name.Err? ==> stop == Some(name.error)
        invariant name.Ok? && stop.None? ==> Rectangles(annotations[..j], image.id, colors) == Ok(drawn)
        invariant name.Ok? && stop.Some? ==> Rectangles(annotations[..j], image.id, colors) == Err(stop.value)
      {
        var a := annotations[j];
        RectanglesStep(annotations, j, image.id, colors, drawn);
        if a.imageId == image.id {
          if |a.bbox| < 4 {
            stop := Some(ShortBbox(a.id, |a.bbox|));
            assert DrawFor(a, colors) == Err(stop.value);
          } else {
            var corners := Corners(a.bbox[0], a.bbox[1], a.bbox[0] + a.bbox[2], a.bbox[1] + a.bbox[3]);
            if a.categoryId !in colors {
              stop := Some(MissingColor(a.categoryId));
              assert DrawFor(a, colors) == Err(stop.value);
            } else {
              var color := colors[a.categoryId];
              var rectangle := Rectangle(corners, Paint(color, FillAlpha), Paint(color, Opaque), OutlineWidth);
              assert DrawFor(a, colors) == Ok(rectangle);
              drawn := drawn + [rectangle];
            }
          }
        }
        j := j + 1;
      }
      if stop.Some? {
        if name.Ok? {
          RectanglesFailureStays(annotations, j, image.id, colors);
        }
        failure := stop;
        AnnotateAllFailureStays(images, i + 1, annotations, colors, cwd, destDir);
        return;
      }
      assert annotations[..j] == annotations;
      saved := saved + [SavedImage(OutputPath(cwd, destDir, name.value), drawn)];
      i := i + 1;
    }
    assert images[..i] == images;
  }
}
