/** Option and Result: the model's stand-ins for Python's None and raised exceptions. */
module Wrappers {

  datatype Option<+T> = None | Some(value: T)

  /** The errors the modelled code raises. */
  datatype Error =
    | StructError          // struct.unpack(_from) on too few bytes
    | DuplicateFieldName   // collections.namedtuple refuses a repeated field name
    | InvalidFieldName     // collections.namedtuple refuses a name that is not an identifier
    | NoSuchAttribute      // attribute lookup of a name that is not a field
    | IndexOutOfRange      // a field whose position lies past the unpacked values
    | FieldCountMismatch   // namedtuple._make on a value count different from the field count
    | UnexpectedFieldName  // namedtuple._replace given a keyword that is not a field
    | UnknownFieldName     // unpacking the None that FieldTypeTable.get_by_name returns
    | NoDataInInputBuffer  // pcap.get_parser on fewer than 4 bytes
    | UnsupportFileFormat  // pcap magic number not recognised
    | NotAnAddress         // ipaddress.ip_address on an int of 2^128 or more

  datatype Result<+T> = Ok(value: T) | Err(error: Error) {
    predicate IsFailure() { Err? }
    function PropagateFailure<U>(): Result<U> requires Err? { Err(error) }
    function Extract(): T requires Ok? { value }
  }
}
