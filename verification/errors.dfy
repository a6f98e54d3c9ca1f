/** The failures the visualiser can raise, and the wrappers that carry them. */
module Errors {

  /** One constructor per exception the script can raise on its own data. */
  datatype Error =
    | ColorMapSizeMismatch(given: nat, expected: nat)  // RuntimeError raised by `run`
    | MissingPathSegment(fileName: string)            // IndexError from `file_name.split("/")[1]`
    | ShortBbox(annotationId: int, length: nat)        // IndexError from `bbox[k]`
    | MissingColor(categoryId: int)                    // KeyError from `color_map[category_id]`

  datatype Option<+T> = None | Some(value: T)

  datatype Result<+T> = Ok(value: T) | Err(error: Error)
}
