/** The outcome of FarmBot's `semverCompare(left, right)`. The comparison
    itself is not part of this model: every operation that needs it takes it
    as a parameter of type `Comparator`, and nothing is assumed about it
    (neither antisymmetry nor transitivity). */
module Semver {

  datatype SemverResult = LeftIsGreater | RightIsGreater | Equal

  type Comparator = (string, string) -> SemverResult
}
