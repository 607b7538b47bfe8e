/** Failure-compatible wrappers and the blank test the manifests share. */
module Prelude {

  datatype Option<+T> = None | Some(value: T) {
    function GetOr(default: T): T {
      match this
      case Some(v) => v
      case None => default
    }
  }

  datatype Result<+T, +E> = Ok(value: T) | Err(error: E)

  /** Row keys: the database's UUIDs, compared as text. */
  type Id = string

  /** The characters String.prototype.trim removes. */
  predicate IsWhiteSpace(c: char) {
    || '\U{0009}' <= c <= '\U{000d}' || c == ' ' || c == '\U{00a0}' || c == '\U{1680}'
    || '\U{2000}' <= c <= '\U{200a}' || c == '\U{2028}' || c == '\U{2029}' || c == '\U{202f}'
    || c == '\U{205f}' || c == '\U{3000}' || c == '\U{feff}'
  }

  /** `value.trim() === ""` */
  predicate IsBlank(value: string) {
    forall i | 0 <= i < |value| :: IsWhiteSpace(value[i])
  }

  /** `!value || value.trim() === ""` on an optional text field. */
  predicate MissingText(value: Option<string>) {
    value.None? || IsBlank(value.value)
  }
}
