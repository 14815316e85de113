/**
 The message-body cipher of the client (frontend/src/lib/crypto.js).
 CryptoJS's passphrase-based AES is a foreign library, so the model takes it
 as a value `Aes` holding its two operations: `encrypt` (plaintext,
 passphrase, random salt) to ciphertext, and `decrypt` (ciphertext,
 passphrase) to the UTF-8 text of the decrypted bytes, or a thrown error.
 The only fact assumed about it is `Inverse`: decrypting what was encrypted
 under the same passphrase gives back the plaintext, whatever the salt.
 */
module Crypto {
  import opened ChatTypes

  /** The random salt CryptoJS draws for every encryption. */
  type Salt = nat

  datatype Aes = Aes(
    encrypt: (string, string, Salt) -> string,
    decrypt: (string, string) -> Outcome<string>)

  ghost predicate Inverse(aes: Aes)
  {
    forall m, key, salt :: aes.decrypt(aes.encrypt(m, key, salt), key) == Returned(m)
  }

  /** The passphrase compiled into every client. */
  const SecretKey: string := "your-secret-key"

  /** What `decryptMessage` returns instead of failing. */
  const DecryptFallback: string := "Error: Unable to decrypt message"

  /** `decryptMessage(encryptedMessage)`: decrypt under the shared key; an
      empty result is treated as a failure, and every failure becomes the
      fallback text. It never throws and never returns the empty string. */
  function DecryptMessage(aes: Aes, encrypted: string): (r: Outcome<string>)
    ensures r.Returned? && r.value != ""
    ensures aes.decrypt(encrypted, SecretKey).Threw? ==> r.value == DecryptFallback
    ensures aes.decrypt(encrypted, SecretKey) == Returned("") ==> r.value == DecryptFallback
    ensures forall s :: s != "" && aes.decrypt(encrypted, SecretKey) == Returned(s) ==> r.value == s
  {
    match aes.decrypt(encrypted, SecretKey)
    case Threw => Returned(DecryptFallback)
    case Returned(s) => if s == "" then Returned(DecryptFallback) else Returned(s)
  }

  /** `encryptMessage(message)`: encrypt under the shared key with a fresh
      salt. With a cipher that inverts, decrypting the result gives the
      message back, except that the empty message comes back as the fallback
      text (its decryption is empty, which `decryptMessage` rejects). */
  function EncryptMessage(aes: Aes, message: string, salt: Salt): (r: string)
    ensures Inverse(aes) && message != "" ==> DecryptMessage(aes, r) == Returned(message)
    ensures Inverse(aes) && message == "" ==> DecryptMessage(aes, r) == Returned(DecryptFallback)
  {
    aes.encrypt(message, SecretKey, salt)
  }

  /** The round trip for every plaintext and salt: the plaintext itself when
      it is non-empty, and the fallback text for the empty plaintext. */
  lemma RoundTrip(aes: Aes, message: string, salt: Salt)
    requires Inverse(aes)
    ensures DecryptMessage(aes, EncryptMessage(aes, message, salt)).value
            == if message == "" then DecryptFallback else message
  {
  }

  /** The random salt makes ciphertexts differ, but never what they decrypt
      to: two encryptions of one plaintext read back the same. */
  lemma DecryptIgnoresSalt(aes: Aes, message: string, salt1: Salt, salt2: Salt)
    requires Inverse(aes)
    ensures DecryptMessage(aes, EncryptMessage(aes, message, salt1))
            == DecryptMessage(aes, EncryptMessage(aes, message, salt2))
  {
  }
}
