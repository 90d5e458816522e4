/**
 * The facts the library takes from the platform and that the model leaves uninterpreted:
 * Swift's textual form of a `CGFloat` (as used by string interpolation, e.g. 5 -> "5.0")
 * and the names of the system's monospaced and italic fonts.
 */
module Environment {

  datatype Env = Env(
    describe: real -> string,
    monospacedFontName: string,
    italicFontName: string)
}
