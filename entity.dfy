/** Identity-based equality of entities (src/shared/domain/entity.ts). */
module Entities {

  /** What `equals` may be handed: nothing, a non-entity object, or an entity with its id. */
  datatype Candidate<Id> = Null | Undefined | NotAnEntity | AnEntity(ref: object, id: Id)

  /** An entity candidate is consistent with `self` when `self` itself carries `selfId`. */
  predicate Consistent<Id(==)>(self: object, selfId: Id, other: Candidate<Id>) {
    other.AnEntity? && other.ref == self ==> other.id == selfId
  }

  /** `equals(object)`: the same reference, or another entity with the same id. */
  function Equals<Id(==)>(self: object, selfId: Id, other: Candidate<Id>): bool {
    match other
    case Null => false
    case Undefined => false
    case NotAnEntity => false
    case AnEntity(ref, id) => if ref == self then true else selfId == id
  }

  /** Entity equality is id equality; null, undefined and non-entities are never equal. */
  lemma EqualsIsIdEquality<Id>(self: object, selfId: Id, other: Candidate<Id>)
    requires Consistent(self, selfId, other)
    ensures Equals(self, selfId, other) <==> other.AnEntity? && other.id == selfId
  {
  }

  /** `a.equals(b)` and `b.equals(a)` agree. */
  lemma EqualsSymmetric<Id>(a: object, aId: Id, b: object, bId: Id)
    requires a == b ==> aId == bId
    ensures Equals(a, aId, AnEntity(b, bId)) == Equals(b, bId, AnEntity(a, aId))
  {
  }

  /** Equality is transitive across three entities. */
  lemma EqualsTransitive<Id>(a: object, aId: Id, b: object, bId: Id, c: object, cId: Id)
    requires a == b ==> aId == bId
    requires b == c ==> bId == cId
    requires a == c ==> aId == cId
    requires Equals(a, aId, AnEntity(b, bId)) && Equals(b, bId, AnEntity(c, cId))
    ensures Equals(a, aId, AnEntity(c, cId))
  {
  }
}
