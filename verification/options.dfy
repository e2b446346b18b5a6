/** The optional value returned by a lookup in one of the board tables: a table
    either maps a key (`Some`) or leaves it undefined (`None`). */
module Options {

  datatype Option<T> = None | Some(value: T) {

    /** Reads a table entry with a fallback: the mapped value if the key is
        mapped, `default` if not. This is the `??` operator of the room code. */
    function GetOr(default: T): T {
      match this
      case Some(v) => v
      case None => default
    }
  }
}
