/** An optional value: used for the container width (absent until the playfield
    is mounted), a search that may find nothing, and pending timers. */
module Options {
  datatype Option<T> = None | Some(value: T)
}
