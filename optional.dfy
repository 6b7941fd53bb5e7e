/** The optional value the exporter meets wherever the source tests for null. */
module Optional {

  datatype Option<+T> = None | Some(value: T)
}
