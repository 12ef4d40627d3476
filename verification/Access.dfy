/** Declared accesses of systems and when two of them conflict. */
module Access {

  datatype AccessType = None | Entity | World | Component(component: nat) | Resource(resource: nat)

  datatype AccessDesc = AccessDesc(ty: AccessType, mutable: bool)

  /** `AccessDesc::conflicts` as written: only the receiver is tested for `World`. */
  predicate ConflictsOneSided(a: AccessDesc, b: AccessDesc) {
    a.ty.World? || (a.ty == b.ty && (a.mutable || b.mutable))
  }

  /** The symmetric relation the schedule builder respects: `World` conflicts with everything. */
  predicate Conflicts(a: AccessDesc, b: AccessDesc) {
    a.ty.World? || b.ty.World? || (a.ty == b.ty && (a.mutable || b.mutable))
  }

  predicate SystemsConflict(a: seq<AccessDesc>, b: seq<AccessDesc>) {
    exists p, q :: 0 <= p < |a| && 0 <= q < |b| && Conflicts(a[p], b[q])
  }

  /** Two descriptors of one access list conflict with each other. */
  predicate SelfConflict(a: seq<AccessDesc>) {
    exists p, q :: 0 <= p < q < |a| && Conflicts(a[p], a[q])
  }

  /** The written test agrees with the symmetric one exactly when a `World` argument comes with a `World` receiver. */
  lemma OneSidedIffWorldOnTheLeft(a: AccessDesc, b: AccessDesc)
    ensures (ConflictsOneSided(a, b) <==> Conflicts(a, b)) <==> (b.ty.World? ==> a.ty.World?)
  {
  }

  /** Reads and writes a descriptor list entitles a system to. `World` entitles to every cell. */
  predicate MayRead(access: seq<AccessDesc>, cell: AccessType) {
    exists d :: 0 <= d < |access| && (access[d].ty.World? || access[d].ty == cell)
  }

  predicate MayWrite(access: seq<AccessDesc>, cell: AccessType) {
    exists d :: 0 <= d < |access| && (access[d].ty.World? || (access[d].ty == cell && access[d].mutable))
  }

  /** Systems that do not conflict write nothing the other one may read or write. */
  lemma NonConflictingFootprints(a: seq<AccessDesc>, b: seq<AccessDesc>, cell: AccessType)
    requires !SystemsConflict(a, b)
    requires MayWrite(a, cell)
    ensures !MayRead(b, cell) && !MayWrite(b, cell)
  {
  }
}
