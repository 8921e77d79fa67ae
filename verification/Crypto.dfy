/** Record encryption under one key, with the cipher left abstract. */
module Crypto {
  import opened Wrappers
  import opened Schema

  /** `seal` takes a nonce, a title and a content; `open` is None when decryption fails. */
  datatype Cipher = Cipher(seal: (Bytes, string, string) -> Bytes, open: Bytes -> Option<(string, string)>)

  /** Decrypting an encryption gives the text back.  Nothing else is assumed. */
  ghost predicate Lawful(c: Cipher) {
    forall nonce, title, content :: c.open(c.seal(nonce, title, content)) == Some((title, content))
  }

  predicate Opens(c: Cipher, blob: Bytes) {
    c.open(blob).Some?
  }
}
