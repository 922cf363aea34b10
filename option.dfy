/** The optional value used for nullable state (`string | null`) and for absent results. */
module Optional {

  datatype Option<T> = None | Some(value: T)
}
