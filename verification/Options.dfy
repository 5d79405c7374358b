/** The optional value used throughout the model. */
module Options {
  datatype Option<+T> = None | Some(value: T) {

    /** The later value when there is one, else this one. */
    function OverriddenBy(later: Option<T>): Option<T> {
      if later.Some? then later else this
    }
  }
}
