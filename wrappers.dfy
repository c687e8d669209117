/** An optional value: the model of a JavaScript value that may be `undefined`
    (an optional record field, the result of `Array.prototype.find`) or of a
    number that may be `NaN` (the time value of an unparsable date). */
module Wrappers {

  datatype Option<+T> = None | Some(value: T)

}
