/** An optional value, standing for Swift's `T?`. */
module Optional {

  datatype Option<+T> = None | Some(value: T)
}
