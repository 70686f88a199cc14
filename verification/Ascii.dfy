/** The bytes that both the JSON grammar and the event-stream format name. */
module Ascii {
  import opened Utf8

  const COLON: byte := 0x3A

  predicate IsDigit(b: byte) { 0x30 <= b <= 0x39 }
}
