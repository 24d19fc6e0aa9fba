// The optional value used for absent JSON fields and for calls that hand nothing out.
module Options {

  datatype Option<+T> = None | Some(value: T)
}
