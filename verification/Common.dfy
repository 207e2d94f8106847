// Values shared by every module of the model.
module Common {

  datatype Option<+T> = None | Some(value: T)

  // The range of a C uint64_t; arithmetic that may leave it is written out.
  const UINT64_MAX: nat := 0xFFFF_FFFF_FFFF_FFFF
}
