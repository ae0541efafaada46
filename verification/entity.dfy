/** The entity base class of the Mario-8 build, as far as the level, the
    player and the snail's dying state use it. Entity.js itself is not part
    of this model: the fields here are the ones those files read and write. */
module Entities {
  import opened Common

  class Entity {
    var position: Vector
    const dimensions: Vector
    /** Set when the entity has been killed. */
    var isDead: bool
    /** Set when the level should drop the entity. */
    var cleanUp: bool

    constructor (dimensions: Vector, position: Vector)
      ensures this.dimensions == dimensions && this.position == position
      ensures !isDead && !cleanUp
    {
      this.dimensions := dimensions;
      this.position := position;
      isDead := false;
      cleanUp := false;
    }

    /** The entity's own `update(dt)`, which is not part of this model
        beyond whether it asks to be cleaned up. */
    method Update(flag: bool)
      modifies this
      ensures cleanUp == (old(cleanUp) || flag)
      ensures position == old(position) && isDead == old(isDead)
    {
      if flag {
        cleanUp := true;
      }
    }
  }
}
