/** A path as the sequence of its components, so that "starts with" is "is a prefix of". */
module Paths {

  type Path = seq<string>
}
