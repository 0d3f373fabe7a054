/** What every part of the model uses. */
module Common {
  import opened Machine

  datatype Option<T> = None | Some(value: T)

  type Bytes = seq<u8>

  const KEY_LEN := 32
  const AF_INET := 2
  const AF_INET6 := 10
}
