/** Result shapes for the values that the market-data gateway and the JSON layer hand to the
    trading programs. */
module Wrappers {

  datatype Option<+T> = None | Some(value: T)

  /** What a gateway call that returns `data[0]` of a JSON array yields: the call threw
      (a non-ok response or a network error), the array was empty so the value is
      `undefined`, or a record came back. */
  datatype Fetch<+T> = Failed | Missing | Got(value: T)
}
