/** What several modules share. */
module Common {
  datatype Option<+T> = None | Some(value: T)

  /** An operation either yields a value or fails and changes nothing. */
  datatype Result<+T> = Ok(value: T) | Err

  function Min(a: int, b: int): int {
    if a <= b then a else b
  }

  predicate IsDigit(c: char) {
    '0' <= c <= '9'
  }

  predicate StartsWith(s: string, prefix: string) {
    prefix <= s
  }
}
