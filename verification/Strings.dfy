/** White space, as Go's strings package trims and splits by it (ASCII). */
module Strings {
  predicate IsSpace(c: char) { c == ' ' || '\t' <= c <= '\r' }

  /** strings.TrimSpace. */
  function Trim(s: string): string {
    if s == "" then ""
    else if IsSpace(s[0]) then Trim(s[1..])
    else if IsSpace(s[|s| - 1]) then Trim(s[..|s| - 1])
    else s
  }
}
