/// The "NAME:" header lines that open a block in every bucket.
module Headers {
  import opened PyText

  /** The stripped line starts with tag. */
  predicate HasTag(line: string, tag: string) {
    StartsWith(Strip(line), tag)
  }

  predicate IsNameLine(line: string) {
    HasTag(line, "NAME:")
  }

  /** The name a NAME: line opens: the stripped line with every "NAME:"
      removed, stripped again. */
  function HeaderName(line: string): string {
    Strip(RemoveAll(Strip(line), "NAME:"))
  }

  /** No line of body is a NAME: line. */
  predicate NoNameLine(body: seq<string>) {
    body == [] || (!IsNameLine(body[0]) && NoNameLine(body[1..]))
  }

  /** The names the NAME: lines of a bucket open, in order. */
  function HeaderNames(lines: seq<string>): seq<string>
    decreases |lines|
  {
    if lines == [] then []
    else (if IsNameLine(lines[0]) then [HeaderName(lines[0])] else []) + HeaderNames(lines[1..])
  }
}
