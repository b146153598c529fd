/** The optional value used for `Array.prototype.find` and for the handler's guard. */
module Options {

  datatype Option<+T> = None | Some(value: T)
}
