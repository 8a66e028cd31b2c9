/** TypeScript's `T | undefined`, as used throughout the update button. */
module Wrappers {

  datatype Optional<+T> = Undefined | Defined(value: T)

  /** JavaScript's `s || ""` on an optional string: `undefined` and the
      (falsy) empty string both give "", any other string is kept. */
  function OrEmpty(s: Optional<string>): (r: string)
    ensures s.Undefined? ==> r == ""
    ensures s.Defined? ==> r == s.value
  {
    match s
    case Undefined => ""
    case Defined(v) => if v == "" then "" else v
  }
}
