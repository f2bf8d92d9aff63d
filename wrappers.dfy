/** Option and Result, used for values that may be absent and for the error paths of the source. */
module Wrappers {

  datatype Option<+T> = None | Some(value: T) {
    function GetOr(default: T): T {
      match this
      case Some(v) => v
      case None => default
    }
  }

  datatype Result<+T, +E> = Success(value: T) | Failure(error: E)
}

/** The ways in which the modelled operations fail (the source raises an exception for each). */
module Errors {

  datatype Error =
    | InvalidLineage      // a lineage entry whose id does not match the pattern (assertion in the constructor)
    | MissingId           // a lineage entry without an id, which the pattern cannot be matched against (TypeError)
    | InvalidLevel        // a string that is not one of the level values (ValueError)
    | MalformedLff        // a flat-format field that does not split as expected (ValueError)
    | AncestorClash       // an ancestor directory with the node's own name (assertion in from_ini)
    | NoDescriptor        // an ancestor directory without a descriptor file (None has no name)
    | NotIniFile          // the first file in a directory is not an .ini file (assertion in from_dir)
    | NotADirectory       // listing a directory that does not exist (OSError)
    | NotAList            // macroareas assigned something other than a list (assertion)
    | ReadOnlyAttribute   // assigning a property that has no setter (AttributeError)
    | EmptySlug           // allocating a code for a name whose slug is empty (assertion)
}
