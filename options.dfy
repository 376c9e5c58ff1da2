/** The conventional optional-value datatype, shared by the UPDI and button models. */
module Options {

  datatype Option<+T> = None | Some(value: T)
}
