# coco-visualizer: a Dafny model of the overlay planner

The visualiser reads a COCO-style dataset description and writes a copy of each image. On each copy, every annotation's bounding box is drawn as a translucent rectangle in its category's colour. This project models the parts of `main.py` that decide what is drawn and where the copy goes:

- **Colour assignment** (`ColorAssignment`, `HexFormat`): `get_default_color_map`.
  - With at most eight categories, the fixed palette `BASE_COLORS` is zipped against the category ids.
  - Otherwise each category gets a random value in `[0, 0xFFFFFF]`, formatted with `%06x`.
  - The random values are an input sequence `draws`: the k-th draw belongs to the k-th category.
- **Overlay planning** (`OverlayRenderer`, `FilePaths`): `annotate_and_write` without the pixel work.
  - For each image, the model records the rectangles drawn on its overlay. Each one has its corners, fill, outline and width.
  - It also records the path the composited copy is saved to.
  - The method `AnnotateAndWrite` keeps the source's nested loops. It is proved equal to the specification function `AnnotateAll`, and the lemmas state what `AnnotateAll` means.
- **Entry point** (`EntryPoint`): the colour-map choice and size check of `run`.
- **Data** (`Coco`, `Errors`): the dataclasses as datatypes. The four exceptions the script raises on its own data are constructors of `Error`.

Failures end the whole run, as in the script. An exception propagates out of the image loop, so the copies saved for earlier images remain. A run is therefore modelled as an `Outcome`: the copies saved, plus the error that stopped the run, if any.

Two behaviours of the script that look unintended are kept as written:

- The output name is the second `/`-separated piece of `file_name`, not its basename. For `a/b/c.png` it is `b`.
- Random-branch colours are six hex digits with no `#`. Palette colours have the `#`.

## Model

| member | source | states |
|---|---|---|
| `ColorAssignment.DefaultColorMap` | main.py:70-83 | Has one key per category id. With ≤ 8 categories every colour is a palette entry (`#` plus 6 characters). Otherwise every colour is exactly 6 lower-case hex digits. Equals `DefaultColorMapSpec`. |
| `ColorAssignment.DefaultColorMapShape` | main.py:75-83 | The same key set and colour shapes, stated of the specification function for both branches. |
| `ColorAssignment.PaletteInListedOrder` | main.py:75-77 | With ≤ 8 categories and distinct ids: one entry per category, the k-th category maps to `BASE_COLORS[k]`, no colour repeats, and palette entries past the category count are unused. |
| `ColorAssignment.RandomColorsEncodeDraws` | main.py:78-83 | With > 8 categories and distinct ids: one entry per category, and the k-th category's colour is `%06x` of the k-th draw. That colour is lower-case hex and reads back as the draw. |
| `ColorAssignment.ZipKeys` | main.py:77 | The keys of `dict(zip(keys, values))` are the keys of the pairs formed, up to the shorter list. |
| `ColorAssignment.ZipValues` | main.py:77 | Every value of `dict(zip(...))` is one of the paired values. |
| `ColorAssignment.ZipLookup` | main.py:77 | The k-th key maps to the k-th value unless a later pair repeats the key (later pairs win). |
| `ColorAssignment.ZipSize` | main.py:77 | With distinct keys, the dict has one entry per pair. |
| `ColorAssignment.OneCategoryGetsBlue` | main.py:75-77 | A single category is mapped to `#0000FF`. |
| `HexFormat.Hex` | main.py:82 | The hex digits of a value are non-empty and lower-case. |
| `HexFormat.ParseHexOfHex` | main.py:82 | The digits of `v` read back as `v`. |
| `HexFormat.Format06xRoundTrip` | main.py:82 | `%06x` gives at least six lower-case hex digits that read back as the value. |
| `HexFormat.ColorCodeFormat` | main.py:82 | A draw in `[0, 0xFFFFFF]` is written as exactly six lower-case hex digits that read back as the draw. |
| `HexFormat.Format06xInjective` | main.py:82 | Different draws give different colour strings. |
| `FilePaths.SplitPieces` | main.py:99 | No piece of `s.split(sep)` contains `sep`, and there are at least two pieces exactly when `s` contains `sep`. |
| `FilePaths.JoinSplit` | main.py:99 | Joining the pieces of a split with the separator gives the string back. |
| `FilePaths.SecondSegment` | main.py:99 | `file_name.split("/")[1]` fails with an index error exactly when the name has no `/`. Otherwise the piece contains no `/`. |
| `FilePaths.SecondSegmentOf` | main.py:99 | For `first/second` followed by nothing or by `/…`, the piece taken is `second`. |
| `FilePaths.SecondSegmentExamples` | main.py:99 | `imgs/a.png` gives `a.png`, `a/b/c.png` gives `b` (not the basename), and `a.png` fails. |
| `FilePaths.OutputPath` | main.py:118 | The save path is `cwd/destDir/name`, and it ends in the derived name. |
| `OverlayRenderer.ToCorners` | main.py:102-107 | `[x, y, w, h]` becomes corners whose box form is the first four numbers again. A list shorter than four fails with an index error. With w, h ≥ 0 the second corner is at or beyond the first on both axes. |
| `OverlayRenderer.CornersRoundTrip` | main.py:102-107 | Converting a corner rectangle's box form back gives the same corners. |
| `OverlayRenderer.DrawFor` | main.py:102-116 | An annotation can be drawn exactly when its box has four numbers and its category has a colour. Otherwise the box error comes first, then the missing-colour (KeyError) error. |
| `OverlayRenderer.DrawForStyle` | main.py:108-116 | The fill is the category's colour at alpha 50, the outline is that colour at alpha 255, the width is 3, and the corners are the converted box. |
| `OverlayRenderer.SelectedMembers` | main.py:100-101 | The selected annotations are exactly those in the list whose `image_id` is the image's id. |
| `OverlayRenderer.SelectedAppend` | main.py:100-101 | Selecting from two lists in a row gives the selection from the first followed by the selection from the second, so the annotations keep their list order. |
| `OverlayRenderer.SelectedCounts` | main.py:100-101 | An annotation of the image is selected as many times as it is listed (a duplicate is drawn twice), and an annotation of another image is never selected. |
| `OverlayRenderer.RectanglesMeaning` | main.py:100-116 | One image's rectangles are exactly those of its selected annotations, one each and in list order. Drawing fails exactly when one of them cannot be drawn, and the error is the first such annotation's. |
| `OverlayRenderer.RectanglesFailureStays` | main.py:100-116 | After a failure, later annotations change nothing. |
| `OverlayRenderer.AnnotateImageMeaning` | main.py:94-118 | A copy is saved exactly when the name has a `/` and every selected annotation can be drawn. It is saved to `cwd/destDir/<second piece>` with one rectangle per selected annotation, in order. A name without `/` fails before any annotation is looked at. |
| `OverlayRenderer.AnnotateAllMeaning` | main.py:94-118 | A run either saves one copy per image, the i-th for image i, or saves the copies of the images before the first failing one and reports that image's error. |
| `OverlayRenderer.AnnotateAllFailureStays` | main.py:94-118 | After a failure, later images change nothing. |
| `OverlayRenderer.AnnotateAndWrite` | main.py:86-118 | The nested image and annotation loops produce exactly the outcome `AnnotateAll` specifies. |
| `EntryPoint.CheckColorMap` | main.py:139-142 | A user map passes exactly when its entry count equals the category count. Otherwise the error is a size mismatch carrying both counts. |
| `EntryPoint.OneEntryPerCategoryAccepted` | main.py:139-142 | With distinct category ids, a map with exactly one entry per category passes the check. |
| `EntryPoint.SizeCheckIgnoresKeys` | main.py:139-142 | A map of the right size keyed by the wrong id passes the check. The run then fails with a missing colour, and no copy is saved. |
| `EntryPoint.CheckColorMapText` | main.py:139-142 | As written: the check compares the character count of the option text with the category count. |
| `EntryPoint.RawTextCheckRejectsOneEntryMap` | main.py:125-142 | The text `{"1": "#0000FF"}` (16 characters) is refused for one category, although the map it denotes passes `CheckColorMap`. |
| `EntryPoint.Run` | main.py:137-144 | A user map of the wrong size stops the run with a size mismatch and no copy saved. A user map of the right size is used as given. With no user map, the default map is used. |
| `EntryPoint.SingleBoxScenario` | main.py:94-118 | One image `imgs/a.png` with box `[2, 2, 4, 4]` in blue gives one copy `cwd/destDir/a.png` with one rectangle from (2, 2) to (6, 6), fill alpha 50, outline opaque, width 3. |

## Left out

- Pixel work done through PIL is not modelled: `Image.open`, `putalpha`, `Image.new`, the rasterisation of `draw.rectangle`, `alpha_composite`, `convert` and `save`. It is a foreign library. The model records the parameters of each rectangle, not the resulting pixels.
- `ImageColor.getcolor` is a foreign call. A rectangle carries the colour-map string itself as an opaque colour. The unprefixed random-branch strings (no `#`, see `ColorAssignment.DefaultColorMap`) are passed to it as they are. Whether PIL accepts them is not part of this model.
- `random.randint(0, 0xFFFFFF)` is nondeterministic. It is replaced by the input sequence `draws`, each value at most `0xFFFFFF`, one per category.
- Command-line parsing with click, JSON loading, `dataclasses_json` decoding and `os.makedirs` are I/O plumbing and are not modelled. The output directory is made before the size check (`os.makedirs` with `exist_ok=True`), so a refused map leaves it in place (created if it was missing).
- `os.getcwd()` is not modelled. The model takes the working directory as the parameter `cwd`.
- Missing or unreadable image files, and failed saves, are not modelled.
- `--color-map` reaches the size check as the raw option text in the source (see Findings). As the option's help text describes, the model checks a parsed map and counts its entries. Keying that map by integer category id is the model's own choice, so that the lookup `color_map[annotation.category_id]` (main.py:109) can succeed; the help text's own example, `{"category_a": "#00BEEF"}`, has a string key. After JSON decoding the keys would be strings, so lookups by integer `category_id` would miss them. That is not modelled either.
- The `labels` / `--show-labels` parameter is accepted and never used, so there is nothing to model.
- The fields `segmentation`, `ignore`, `iscrowd`, `area`, the image `width`/`height` and `Info` are carried in the datatypes. No modelled operation reads them.

## Findings

| source | as written | input that shows it | evidently intended | confidence | as-written member | corrected member |
|---|---|---|---|---|---|---|
| main.py:139 | `len(color_map)` is applied to the unparsed `--color-map` text, so it counts characters | `--color-map '{"1": "#0000FF"}'` with one category: the text has 16 characters, so the run raises the size error although the map has exactly one entry | compare the number of entries of the parsed map with the number of categories | high, not executed | `EntryPoint.RawTextCheckRejectsOneEntryMap` | `EntryPoint.CheckColorMap` |
