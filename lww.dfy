// The last-writer-wins order shared by the vault and the desktop client: a
// record replaces the stored copy of the same entry only when it is strictly
// newer, comparing the version counter first and the `updated_at` instant
// second. The source writes this rule out three times; each copy is proved
// equal to `Newer`.

module Lww {
  import opened Common

  /** The version and update time that decide which copy of a record wins. */
  datatype Stamp = Stamp(version: int, updatedAt: DateTime)

  /** `incoming` strictly supersedes `existing`: the strict lexicographic order on (version, instant). */
  predicate Newer(incoming: Stamp, existing: Stamp)
  {
    incoming.version > existing.version
    || (incoming.version == existing.version && incoming.updatedAt.Instant() > existing.updatedAt.Instant())
  }

  /** A copy never supersedes itself, so re-sending a record changes nothing. */
  lemma NewerIrreflexive(a: Stamp)
    ensures !Newer(a, a)
  {
  }

  /** Two copies never supersede each other. */
  lemma NewerAsymmetric(a: Stamp, b: Stamp)
    ensures !(Newer(a, b) && Newer(b, a))
  {
  }

  lemma NewerTransitive(a: Stamp, b: Stamp, c: Stamp)
    requires Newer(a, b) && Newer(b, c)
    ensures Newer(a, c)
  {
  }

  /**
   * When `incoming` replaces `stored`, a record that did not supersede
   * `stored` does not supersede `incoming` either.
   */
  lemma NotNewerPreserved(stored: Stamp, incoming: Stamp, other: Stamp)
    requires !Newer(other, stored) && Newer(incoming, stored)
    ensures !Newer(other, incoming)
  {
  }
}
