/** Bundle versions: an incarnation of the process and a generation counted inside it. */
module Versions {

  datatype Version = Version(incarnation: nat, generation: nat) {
    /** Lexicographic order on incarnation, then generation. */
    predicate NewerThan(other: Version) {
      incarnation > other.incarnation || (incarnation == other.incarnation && generation > other.generation)
    }
  }

  /** Versions are totally ordered, and any version of a later incarnation is newer than all of an earlier one. */
  lemma NewerThanIsOrder(a: Version, b: Version, c: Version)
    ensures !a.NewerThan(a)
    ensures a.NewerThan(b) && b.NewerThan(c) ==> a.NewerThan(c)
    ensures a != b ==> (a.NewerThan(b) <==> !b.NewerThan(a))
    ensures a.incarnation > b.incarnation ==> a.NewerThan(b)
    ensures a.incarnation == b.incarnation ==> (a.NewerThan(b) <==> a.generation > b.generation)
  {}

  /** The version object of a bundle. It is shared by reference: a dependent bundle may hold its base's object. */
  class BundleVersion {
    const incarnation: nat
    var generation: nat

    constructor (incarnation: nat, generation: nat)
      ensures Value() == Version(incarnation, generation)
    {
      this.incarnation, this.generation := incarnation, generation;
    }

    function Value(): Version reads this {
      Version(incarnation, generation)
    }
  }
}
