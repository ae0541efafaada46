/** The level of the Mario-8 build (src/Mario-8/src/objects/Level.js): a
    tile map and the list of entities living in it. */
module Mario8Level {
  import opened Common
  import opened Tilemap
  import opened Entities

  /** The entities of `es` that have not asked to be cleaned up. */
  function Uncleaned(es: seq<Entity>): set<Entity>
    reads set e | e in es
  {
    set e | e in es && !e.cleanUp
  }

  class Level {
    const tilemap: Tilemap
    var entities: seq<Entity>

    constructor (tilemap: Tilemap, entities: seq<Entity>)
      ensures this.tilemap == tilemap && this.entities == entities
    {
      this.tilemap := tilemap;
      this.entities := entities;
    }

    /** `clear`: drop the entities flagged for clean-up, keeping the others
        in order. */
    method Clear()
      modifies this
      ensures entities == Filter(old(entities), old(Uncleaned(entities)))
    {
      entities := Filter(entities, Uncleaned(entities));
    }

    /** `addEntity`: append at the end. */
    method AddEntity(e: Entity)
      modifies this
      ensures entities == old(entities) + [e]
    {
      entities := entities + [e];
    }

    /** `update(dt)`: clear first, then update every remaining entity once,
        in list order; `updated` lists the entities in the order they were
        updated. The timer and the tile map's own update are not part of
        this model; an entity's update is reduced to whether it asks to be
        cleaned up (it is in `flagged`). An entity flagged during this update
        stays in the list until the next one. */
    method Update(flagged: set<Entity>) returns (updated: seq<Entity>)
      modifies this, set e | e in entities
      ensures entities == Filter(old(entities), old(Uncleaned(entities)))
      ensures updated == entities
      ensures forall j :: 0 <= j < |entities| ==> entities[j].cleanUp == (entities[j] in flagged)
    {
      ghost var before := entities;
      Clear();
      ghost var kept := entities;
      updated := [];
      var i := 0;
      while i < |entities|
        invariant 0 <= i <= |entities|
        invariant entities == kept
        invariant |updated| == i && forall k :: 0 <= k < i ==> updated[k] == kept[k]
        invariant forall j :: 0 <= j < |kept| ==> kept[j].cleanUp == (kept[j] in updated && kept[j] in flagged)
      {
        var e := entities[i];
        e.Update(e in flagged);
        updated := updated + [e];
        i := i + 1;
      }
    }
  }
}
