/** An optional value, used for Java's nullable references and for a field rule
    that either reports an error message or reports nothing. */
module Wrappers {

  datatype Option<+T> = None | Some(value: T)

}
