/** The shapes the backend stores: files, proposal storage records and their pairing. */
module Records {
  import opened Wrappers
  import opened Errors
  import opened Status

  /** The size in bytes of a SHA-256 digest. */
  const DigestSize := 32

  /** A merkle root: a fixed-size array of 32 bytes. */
  type Digest = d: seq<bv8> | |d| == DigestSize witness seq(32, _ => 0 as bv8)

  /** The opaque proposal authentication token. */
  type Token = seq<bv8>

  /** One file of a proposal; the digest and payload are kept as the strings the source holds. */
  datatype File = File(name: string, mime: string, digest: string, payload: string)

  /** The proposal storage record. */
  datatype Record = Record(version: nat, status: PsrStatus, merkle: Digest, name: string, token: Token)

  /** What the backend keeps under one token: the file list and its record. */
  datatype Proposal = Proposal(files: seq<File>, record: Record)

  /**
   * The collaborators the interface relies on but does not show: the merkle
   * root over a file list and the content check that accepts a submission
   * (None) or names the cause of its rejection.
   */
  datatype Collaborators = Collaborators(
    merkleRoot: seq<File> -> Digest,
    verifyContent: seq<File> -> Option<Error>)

  /** Two stored proposals differ at most in the record's status. */
  predicate SameExceptStatus(p: Proposal, q: Proposal)
  {
    && q.files == p.files
    && q.record.version == p.record.version
    && q.record.merkle == p.record.merkle
    && q.record.name == p.record.name
    && q.record.token == p.record.token
  }
}
