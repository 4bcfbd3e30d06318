/** SHA-256, taken as injective: a digest stands for the text it was computed from. */
module Digest {
  datatype Hash = Sha256(text: string)
}
