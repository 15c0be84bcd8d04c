/** Entity identifiers, shared by every system that names an entity. */
module Entity {

  /** Bevy's `Entity`, reduced to an opaque number. */
  type EntityId = nat
}
