/** Exact source identities (fine/rainfall_generation.py, `source_identity`). */
module Snapshots {
  import opened Utf8

  /** SHA-256 digests, idealised as collision-free: a digest carries what it was taken of. */
  datatype Digest = Sha256(content: Bytes) | Unrecognised(text: string)

  datatype SourceIdentity =
    SourceIdentity(document: string, revision: int, digest: Digest, byteLength: int)

  function Identify(source: Bytes, document: string, revision: int): SourceIdentity {
    SourceIdentity(document, revision, Sha256(source), |source|)
  }
}
