/** What the modules share. */
module Common {

  type Byte = x: int | 0 <= x < 256

  datatype Option<+T> = None | Some(value: T)
}
