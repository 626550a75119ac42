/** The leaves of a decoded configuration file. */
module ConfigValues {

  datatype Value = Str(s: string) | Num(n: int)
}
