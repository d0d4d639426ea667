/** An optional value: `None` stands for JavaScript's `null`, `undefined` or
    an absent field. */
module Optional {

  datatype Option<+T> = None | Some(value: T)
}
