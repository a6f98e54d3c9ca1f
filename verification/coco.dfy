/** The dataset description read from the input JSON (images, categories, annotations). */
module Coco {

  datatype Category = Category(id: int, name: string)

  /** `bbox` is `[x, y, width, height]`; the source keeps it as a plain list of integers. */
  datatype Annotation = Annotation(
    id: int,
    imageId: int,
    categoryId: int,
    segmentation: seq<string>,
    bbox: seq<int>,
    ignore: int,
    iscrowd: int,
    area: int)

  datatype CocoImage = CocoImage(id: int, width: int, height: int, fileName: string)

  datatype Info = Info(year: int, version: string, contributor: string)

  datatype Dataset = Dataset(
    annotations: seq<Annotation>,
    categories: seq<Category>,
    images: seq<CocoImage>,
    info: Info)

  /** The category ids in listed order (`[c.id for c in ds.categories]`). */
  function CategoryIds(categories: seq<Category>): seq<int>
  {
    seq(|categories|, k requires 0 <= k < |categories| => categories[k].id)
  }

  /** No two listed categories share an id. */
  predicate DistinctIds(categories: seq<Category>)
  {
    forall j, k :: 0 <= j < k < |categories| ==> categories[j].id != categories[k].id
  }
}
