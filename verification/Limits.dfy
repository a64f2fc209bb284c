/** The sizes of messages and names, and what they allow. */
module Limits {
  const MSG_HEADER := 12
  const TCP_HEADER := 14        // a message header behind its length
  const MSG_LOW := 17
  const MSG_HIGH := 271
  const DATAGRAM_HIGH := 512

  const DNAME_ENCODED := 255
  const LABEL_HIGH := 63
  const COMPRESSION_DEPTH := 20
  const CNAME_DEPTH := 5

  /** What joining two encoded names comes to, before an octet is copied. */
  datatype Join = Joins | TooLong | Asserts

  /** Names that fill the limit fail an assertion, although they are legal. */
  function JoinLengths(len1: nat, len2: nat, size: nat): Join {
    if len1 == 0 || len2 == 0 || len1 >= DNAME_ENCODED || len2 >= DNAME_ENCODED then Asserts
    else if len1 - 1 + len2 > DNAME_ENCODED then TooLong
    else if len1 - 1 >= size || len2 >= size || len1 - 1 + len2 > size then TooLong
    else Joins
  }
}
