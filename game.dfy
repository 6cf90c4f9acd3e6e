/**
 * Model of src/gameplay/game.ts: the entity registry (`entities`, and `enemies` for the
 * instances of `Enemy`), the `active`/`paused` flags and one step of the game loop.
 *
 * `entity.destroy()` is an opaque hook: the model records, as ghost state, the ids it was
 * called on. The user-defined `update`/`draw` callbacks, the canvas and
 * `requestAnimationFrame` are not part of this model; a loop step returns the delta it
 * would hand to `update`.
 */
module Game {
  import opened Wrappers
  import opened Lib
  import E = Entity

  /** What `removeEntity` does when it does not throw. */
  datatype RemoveOutcome = Removed | NotTracked(warning: string)

  const NoIdMessage := "Cannot remove an entity without an id"
  const NotTrackedMessage := "Cannot remove an entity that is not being tracked"

  /** The message `createEntity` throws for a duplicate id. */
  function NotUniqueMessage(id: string): (m: string)
    ensures |m| == |id| + 14 && m[..|id|] == id
  {
    id + " is not unique"
  }

  /** The error of `createEntity` names the offending id, so different ids give different errors. */
  lemma NotUniqueMessageInjective(a: string, b: string)
    requires NotUniqueMessage(a) == NotUniqueMessage(b)
    ensures a == b
  {
    assert |a| == |NotUniqueMessage(a)| - 14 == |b|;
  }

  /**
   * The registry invariant: every entity sits under its own id; `enemies` holds exactly the
   * tracked entities that are enemies, under the same ids.
   */
  ghost predicate RegistryInvariant(entities: map<string, E.Entity>, enemies: map<string, E.Entity>) {
    && (forall id :: id in entities ==> entities[id].id == id)
    && (forall id :: id in enemies ==> id in entities && enemies[id] == entities[id])
    && (forall id :: id in entities ==> (entities[id].isEnemy <==> id in enemies))
  }

  class Game {
    var active: bool
    var paused: bool
    var entities: map<string, E.Entity>
    var enemies: map<string, E.Entity>
    var deltaTracker: DeltaTracker?
    /**
     * The `entities` and `enemies` objects `createGame` returns. They are the registry's own
     * maps until `clearEntities` points the registry at new ones; from then on they keep
     * what they held and no later change reaches them.
     */
    var exportedEntities: map<string, E.Entity>
    var exportedEnemies: map<string, E.Entity>
    /** Whether the returned maps are still the registry's own. */
    var exportShared: bool
    /** Ids of the entities whose `destroy()` hook has run, in order. */
    ghost var destroyed: seq<string>

    /**
     * The registry invariant, an active game has a tracker, and the returned maps show the
     * registry while they are its own.
     */
    ghost predicate Valid()
      reads this
    {
      && RegistryInvariant(entities, enemies) && (active ==> deltaTracker != null)
      && (exportShared ==> exportedEntities == entities && exportedEnemies == enemies)
    }

    /** `createGame`: inactive, unpaused, nothing registered, no tracker. */
    constructor ()
      ensures !active && !paused && entities == map[] && enemies == map[]
      ensures deltaTracker == null && destroyed == []
      ensures exportShared && exportedEntities == map[] && exportedEnemies == map[]
      ensures Valid()
    {
      active := false;
      paused := false;
      entities := map[];
      enemies := map[];
      exportedEntities := map[];
      exportedEnemies := map[];
      exportShared := true;
      deltaTracker := null;
      destroyed := [];
    }

    /** `getIsActive`. */
    function IsActive(): bool
      reads this
    {
      active
    }

    /** `getIsPaused`. */
    function IsPaused(): bool
      reads this
    {
      paused
    }

    /**
     * `createEntity` after the entity is constructed: a duplicate id throws and changes
     * nothing; otherwise the entity is added under its id, and to `enemies` too when it is
     * an enemy.
     */
    method CreateEntity(entity: E.Entity) returns (r: Result<E.Entity, string>)
      modifies this`entities, this`enemies, this`exportedEntities, this`exportedEnemies
      ensures r == if entity.id in old(entities) then Failure(NotUniqueMessage(entity.id)) else Success(entity)
      ensures r.Failure? ==> entities == old(entities) && enemies == old(enemies)
      ensures r.Success? ==> entities == old(entities)[entity.id := entity]
      ensures r.Success? ==>
        enemies == if entity.isEnemy then old(enemies)[entity.id := entity] else old(enemies)
      ensures old(Valid()) ==> Valid()
      ensures ExportFollows()
    {
      if entity.id in entities {
        return Failure(NotUniqueMessage(entity.id));
      }
      if entity.isEnemy {
        enemies := enemies[entity.id := entity];
      }
      entities := entities[entity.id := entity];
      Mirror();
      r := Success(entity);
    }

    /**
     * `removeEntity`: throws for an entity without an id, warns and changes nothing for an
     * untracked id, otherwise runs the `destroy()` hook and deletes the id from `entities`,
     * and from `enemies` when the entity passed is an enemy.
     */
    method RemoveEntity(entity: E.Entity) returns (r: Result<RemoveOutcome, string>)
      modifies this`entities, this`enemies, this`destroyed, this`exportedEntities, this`exportedEnemies
      ensures r == if entity.id == "" then Failure(NoIdMessage)
        else if entity.id !in old(entities) then Success(NotTracked(NotTrackedMessage))
        else Success(Removed)
      ensures !r.Success? || !r.value.Removed? ==>
        entities == old(entities) && enemies == old(enemies) && destroyed == old(destroyed)
      ensures r == Success(Removed) ==>
        && entities == old(entities) - {entity.id}
        && enemies == (if entity.isEnemy then old(enemies) - {entity.id} else old(enemies))
        && destroyed == old(destroyed) + [entity.id]
      ensures old(Valid()) && (entity.id in old(entities) ==> old(entities)[entity.id].isEnemy == entity.isEnemy) ==>
        Valid()
      ensures ExportFollows()
    {
      if entity.id == "" {
        return Failure(NoIdMessage);
      }
      if entity.id !in entities {
        return Success(NotTracked(NotTrackedMessage));
      }
      destroyed := destroyed + [entity.id];
      if entity.isEnemy {
        enemies := enemies - {entity.id};
      }
      entities := entities - {entity.id};
      Mirror();
      r := Success(Removed);
    }

    /**
     * How the returned maps relate to the registry across a change: while they are the
     * registry's own maps they show it; once detached they keep their old contents.
     */
    twostate predicate ExportFollows()
      reads this
    {
      && exportShared == old(exportShared)
      && (old(exportShared && exportedEntities == entities && exportedEnemies == enemies) ==>
            exportedEntities == entities && exportedEnemies == enemies)
      && (!exportShared ==> exportedEntities == old(exportedEntities) && exportedEnemies == old(exportedEnemies))
    }

    /** A change made through the registry's maps is seen through the returned ones while they are shared. */
    method Mirror()
      modifies this`exportedEntities, this`exportedEnemies
      ensures exportShared ==> exportedEntities == entities && exportedEnemies == enemies
      ensures !exportShared ==> exportedEntities == old(exportedEntities) && exportedEnemies == old(exportedEnemies)
    {
      if exportShared {
        exportedEntities := entities;
        exportedEnemies := enemies;
      }
    }

    /**
     * `clearEntities`: the registry gets two new empty maps. The maps `createGame` returned
     * are detached and keep the entities they held.
     */
    method ClearEntities()
      modifies this`entities, this`enemies, this`exportShared
      ensures entities == map[] && enemies == map[]
      ensures !exportShared
      ensures old(Valid()) ==> Valid()
    {
      entities := map[];
      enemies := map[];
      exportShared := false;
    }

    /** `end`: clears the registry and leaves the flags alone. */
    method End()
      modifies this`entities, this`enemies, this`exportShared
      ensures entities == map[] && enemies == map[]
      ensures !exportShared
      ensures old(Valid()) ==> Valid()
    {
      ClearEntities();
    }

    /** `start`: the game becomes active with a new tracker (`onStart` is a hook of the caller). */
    method Start()
      modifies this`active, this`deltaTracker
      ensures active && deltaTracker != null && fresh(deltaTracker)
      ensures deltaTracker.timeOld == -1.0 && deltaTracker.Get() == 0.0
      ensures old(Valid()) ==> Valid()
    {
      active := true;
      deltaTracker := new DeltaTracker();
    }

    /** `togglePaused`. */
    method TogglePaused()
      modifies this`paused
      ensures paused == !old(paused)
    {
      paused := !paused;
    }

    /**
     * One step of `loop(timeNow)`: nothing happens while inactive; otherwise the tracker
     * records `timeNow` and the step yields its delta. `paused` is not consulted.
     */
    method LoopStep(timeNow: real) returns (delta: Option<real>)
      requires active ==> deltaTracker != null
      modifies deltaTracker
      ensures !active <==> delta.None?
      ensures !active ==> deltaTracker == null || unchanged(deltaTracker)
      ensures active ==> deltaTracker.timeOld == timeNow
      ensures active && old(deltaTracker.timeOld) == -1.0 ==> delta == Some(0.0)
      ensures active && old(deltaTracker.timeOld) != -1.0 ==>
        delta == Some((timeNow - old(deltaTracker.timeOld)) / 1000.0)
    {
      if !active {
        return None;
      }
      deltaTracker.Track(timeNow);
      delta := Some(deltaTracker.Get());
    }
  }

  /** Toggling twice gives back the original flag. */
  method ToggleTwice(g: Game)
    modifies g
    ensures g.paused == old(g.paused)
  {
    g.TogglePaused();
    g.TogglePaused();
  }

  /** A paused game still steps: `loop` never reads `paused`. */
  method PausedGameStillSteps(g: Game, timeNow: real) returns (delta: Option<real>)
    requires g.active && g.paused && g.deltaTracker != null
    modifies g.deltaTracker
    ensures delta.Some?
  {
    delta := g.LoopStep(timeNow);
  }

  /**
   * Creating an entity whose id is taken fails and leaves the registry as it was; the
   * first entity stays registered.
   */
  method DuplicateIdRejected(f: E.EntityFields) returns (first: Result<E.Entity, string>, second: Result<E.Entity, string>)
    ensures first.Success?
    ensures second == Failure(NotUniqueMessage(f.id))
  {
    var g := new Game();
    var a := new E.Entity(f, false);
    var b := new E.Entity(f, true);
    first := g.CreateEntity(a);
    second := g.CreateEntity(b);
  }

  /**
   * `removeEntity` trusts the kind of the entity it is given: removing a non-enemy that
   * carries the id of a tracked enemy deletes the id from `entities` but leaves it in
   * `enemies`.
   */
  method ForeignRemovalLeavesEnemy(f: E.EntityFields) returns (inEntities: bool, inEnemies: bool)
    requires f.id != ""
    ensures !inEntities && inEnemies
  {
    var g := new Game();
    var enemy := new E.Entity(f, true);
    var other := new E.Entity(f, false);
    var created := g.CreateEntity(enemy);
    var removed := g.RemoveEntity(other);
    inEntities := f.id in g.entities;
    inEnemies := f.id in g.enemies;
  }

  /**
   * After `clearEntities`, the `entities` map a caller got from `createGame` still holds the
   * cleared entity and never receives one created later, while the registry holds only the
   * new one.
   */
  method ExportedViewGoesStale(f1: E.EntityFields, f2: E.EntityFields)
    returns (oldSeen: bool, newSeen: bool, oldTracked: bool, newTracked: bool)
    requires f1.id != f2.id
    ensures oldSeen && !newSeen
    ensures !oldTracked && newTracked
  {
    var g := new Game();
    var a := new E.Entity(f1, false);
    var created := g.CreateEntity(a);
    g.ClearEntities();
    var b := new E.Entity(f2, false);
    created := g.CreateEntity(b);
    oldSeen := f1.id in g.exportedEntities;
    newSeen := f2.id in g.exportedEntities;
    oldTracked := f1.id in g.entities;
    newTracked := f2.id in g.entities;
  }
}
