/** The values passed between the butler's mapper, storage and repository
    layers: Python values the modelled code inspects, the `write` flag and
    `ButlerLocation`. */
module Location {
  import opened Wrappers

  /** A `write` argument as the code tests it with `is True` / `is False`:
      only the two boolean literals are distinguished from every other
      value (`1`, `0`, `None`, ...). */
  datatype Flag = IsTrue | IsFalse | OtherValue

  /** The Python values that occur in data ids and parsed path fields.
      A float is modelled by its real value. */
  datatype PyValue = PyInt(i: int) | PyFloat(f: real) | PyStr(s: string) | PyNone

  /** Python's `==` on these values: an int and a float compare by
      numeric value; otherwise values of different kinds differ. */
  predicate PyEq(a: PyValue, b: PyValue) {
    match (a, b)
    case (PyInt(x), PyFloat(y)) => x as real == y
    case (PyFloat(x), PyInt(y)) => x == y as real
    case _ => a == b
  }

  type DataId = map<string, PyValue>

  /** The parts of a `ButlerLocation` the modelled code reads or builds.
      `pythonType` is the dotted type name as a string (None for Python's
      None); the mapper back-reference is not kept. */
  datatype ButlerLocation = ButlerLocation(
    pythonType: Option<string>,
    cppType: Option<string>,
    storageName: Option<string>,
    locations: seq<string>,
    dataId: DataId)
}
