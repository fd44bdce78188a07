/** The optional value used wherever the JavaScript code returns `null` for "nothing found". */
module Optional {

  datatype Option<+T> = None | Some(value: T)
}
