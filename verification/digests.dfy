/**
 * MD5 digests (RFC 1321) as `hashlib.md5(...).hexdigest()` renders them.
 * The hash itself is not modelled: callers pass the digest function in.
 */
module Digests {

  /** A lower-case hexadecimal digit, as `hexdigest()` emits. */
  predicate IsHexDigit(c: char) {
    '0' <= c <= '9' || 'a' <= c <= 'f'
  }

  predicate IsHexString(s: string) {
    forall i :: 0 <= i < |s| ==> IsHexDigit(s[i])
  }

  /** A 128-bit digest written as 32 hexadecimal digits. */
  type Digest = s: string | |s| == 32 && IsHexString(s)
    witness "00000000000000000000000000000000"

  /** The MD5 of a string's UTF-8 encoding; an oracle supplied by the caller. */
  type Md5 = string -> Digest
}
