/** The two-field `ColorSet` of the first releases: CSS colour strings, `#` included, for light and dark mode. */
module LegacyColorSet {
  datatype ColorSet = ColorSet(light: string, dark: string)
}
