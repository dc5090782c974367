/** What several of the modules use. */
module Common {

  datatype Option<+T> = None | Some(value: T)

  const PageSize := 0x1000
  const MaxLongLong := 0x7FFF_FFFF_FFFF_FFFF
}
