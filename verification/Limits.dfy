/** The bounds documents and their parts are held to before anything is parsed or computed. */
module Limits {

  const MAX_WRAP_ITEMS: nat := 1000

  const MAX_KV_ENC_FILE_SIZE: nat := 16 * 1024 * 1024
  const MAX_JSON_DOCUMENT_READ_SIZE: nat := 24 * 1024 * 1024
  const MAX_KV_KEY_LINES: nat := 10_000
  const MAX_BASE64_TOKEN_LENGTH: nat := 1024 * 1024
  const MAX_BASE64_CIPHERTEXT_LENGTH: nat := 16 * 1024 * 1024

  const AEAD_TAG_LENGTH: nat := 16
  const MAX_PLAINTEXT_INPUT_SIZE: nat := MAX_BASE64_CIPHERTEXT_LENGTH / 4 * 3 - AEAD_TAG_LENGTH

  const MAX_JSON_DEPTH: nat := 32
  const JSON_ELEMENTS_PER_WRAP_ITEM: nat := 11
  const JSON_ELEMENTS_DOCUMENT_OVERHEAD: nat := 2000
  const MAX_JSON_ELEMENTS: nat := MAX_WRAP_ITEMS * JSON_ELEMENTS_PER_WRAP_ITEM + JSON_ELEMENTS_DOCUMENT_OVERHEAD

  const MAX_MEMBER_HANDLE_LENGTH: nat := 128

  /** The bounds as the numbers they come to. */
  lemma BoundsAre()
    ensures MAX_WRAP_ITEMS == 1000 && MAX_KV_KEY_LINES == 10_000 && MAX_MEMBER_HANDLE_LENGTH == 128
    ensures MAX_BASE64_TOKEN_LENGTH == 1_048_576 && MAX_BASE64_CIPHERTEXT_LENGTH == 16_777_216
    ensures MAX_KV_ENC_FILE_SIZE == 16_777_216 && MAX_JSON_DOCUMENT_READ_SIZE == 25_165_824
    ensures MAX_JSON_DEPTH == 32 && MAX_JSON_ELEMENTS == 13_000
    ensures MAX_PLAINTEXT_INPUT_SIZE + AEAD_TAG_LENGTH == 12_582_912 && AEAD_TAG_LENGTH == 16
  {
  }
}
