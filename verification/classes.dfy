/**
 * Ruby modules and classes as opaque identities, related by an explicit ancestry
 * table. `Le` is Ruby's `a <= b` on modules: `a` is `b`, or `b` is among `a`'s
 * ancestors (a superclass or an included module).
 */
module Classes {

  type ClassId = string

  /** A Module object; `isClass` tells a Class from a plain Module. */
  datatype Mod = Mod(id: ClassId, isClass: bool)

  /** Every known module with the set of all its ancestors. */
  datatype Hierarchy = Hierarchy(ancestors: map<ClassId, set<ClassId>>)

  /** Ruby `a <= b` (a `nil` answer for unrelated modules counts as false). */
  predicate Le(h: Hierarchy, a: ClassId, b: ClassId) {
    a == b || (a in h.ancestors && b in h.ancestors[a])
  }

  /** The ancestry table is transitively closed. */
  ghost predicate WellFormed(h: Hierarchy) {
    forall a, b :: a in h.ancestors && b in h.ancestors[a] && b in h.ancestors ==> h.ancestors[b] <= h.ancestors[a]
  }

  /** `<=` is transitive over a closed ancestry table. */
  lemma LeTransitive(h: Hierarchy, a: ClassId, b: ClassId, c: ClassId)
    requires WellFormed(h)
    requires Le(h, a, b) && Le(h, b, c)
    ensures Le(h, a, c)
  {
  }

  const ObjectId: ClassId := "Object"
  const StringId: ClassId := "String"
  const HashId: ClassId := "Hash"

  /** Ruby's `Object`, the default provided class. */
  const ObjectClass := Mod(ObjectId, true)
}
