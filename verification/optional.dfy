/** An optional value, standing for a TypeScript field or result that may be `undefined`. */
module Optional {

  datatype Option<+T> = None | Some(value: T)
}
