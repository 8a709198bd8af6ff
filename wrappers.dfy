/** Small shared datatypes. */
module Wrappers {

  /** An optional value. In the metric code `None` stands for NumPy's NaN
      (an undefined precision, recall or average precision) and for Python's
      `None` placeholder in the per-class lists. */
  datatype Option<T> = None | Some(value: T)

}
