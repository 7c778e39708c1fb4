/** What every part of the runtime shares. */
module Common {

  datatype Option<+T> = None | Some(value: T)

  const U32_MAX: nat := 0xffff_ffff
  const U64_MAX: nat := 0xffff_ffff_ffff_ffff
}
