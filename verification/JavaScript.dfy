// What several of the models take from the language the service is written in.
module JavaScript {
  const MAX_SAFE_INTEGER: nat := 0x1F_FFFF_FFFF_FFFF

  // White space as `\s` and `String.prototype.trim` know it.
  predicate IsSpace(c: char) {
    || '\t' <= c <= '\r' || c == ' ' || c == '\U{00A0}' || c == '\U{1680}' || '\U{2000}' <= c <= '\U{200A}'
    || c == '\U{2028}' || c == '\U{2029}' || c == '\U{202F}' || c == '\U{205F}' || c == '\U{3000}' || c == '\U{FEFF}'
  }
}
