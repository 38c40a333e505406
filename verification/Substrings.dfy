/** strings.Contains, for the search term and the redaction keys. */
module Substrings {

  predicate Contains(t: string, s: string) {
    exists i | 0 <= i <= |t| :: s <= t[i..]
  }
}
