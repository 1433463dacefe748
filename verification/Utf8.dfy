/** The byte strings that are well-formed UTF-8 (RFC 3629, section 4). */
module Utf8 {
  import opened Bytes

  predicate Tail(b: byte) { 0x80 <= b <= 0xBF }

  /** The length of the character in front, or 0 if there is none. */
  function Rune(b: bytes): (n: nat)
    ensures n <= |b|
  {
    if b == [] then 0
    else if b[0] <= 0x7F then 1
    else if |b| >= 2 && 0xC2 <= b[0] <= 0xDF && Tail(b[1]) then 2
    else if |b| >= 3 && Tail(b[1]) && Tail(b[2])
            && (if b[0] == 0xE0 then b[1] >= 0xA0 else if b[0] == 0xED then b[1] <= 0x9F
                else 0xE1 <= b[0] <= 0xEF) then 3
    else if |b| >= 4 && Tail(b[1]) && Tail(b[2]) && Tail(b[3])
            && (if b[0] == 0xF0 then b[1] >= 0x90 else if b[0] == 0xF4 then b[1] <= 0x8F
                else 0xF1 <= b[0] <= 0xF3) then 4
    else 0
  }

  predicate Textual(b: bytes)
    decreases |b|
  {
    b == [] || (Rune(b) > 0 && Textual(b[Rune(b)..]))
  }
}
