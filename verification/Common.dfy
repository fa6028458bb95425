/** What several of the modules share. */
module Common {

  datatype Option<+T> = None | Some(value: T)

  type byte = n: int | 0 <= n < 256
}
