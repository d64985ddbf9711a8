/** Optional values. In the JavaScript code an absent value is `undefined`
    (or a missing key of a JSON body); here it is `None`. Where a number can
    be `NaN`, `None` stands for `NaN`. */
module Wrappers {

  datatype Option<T> = None | Some(value: T)
}
