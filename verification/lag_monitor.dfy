/**
 * The plugin object: the map of last movement times it keeps, the listener that
 * updates it, and the reclamation steps of optimizeServer. Each step walks the
 * lists the server hands out, as the plugin's foreach loops do, and returns what
 * it acts on (entities to despawn, worlds to unload, players whose world is
 * unloaded, offline players whose data is removed) instead of calling the server.
 */
module LagMonitor {
  import opened Wrappers
  import opened Selection

  /** The steps of optimizeServer, named for the trace of what ran. */
  datatype Step = EntitiesCleared | ChunksUnloaded | InactivePlayerChunksUnloaded | InactivePlayerDataCleared

  /** What one optimizeServer run selected in each step. */
  datatype Optimization = Optimization(
    despawned: seq<Entity>,
    unloadedWorlds: seq<string>,
    idlePlayers: seq<OnlinePlayer>,
    removedPlayers: seq<OfflinePlayer>)

  class Main {
    /** Player name to the time (in seconds) of their last recorded movement. */
    var activePlayers: map<string, int>
    /** The reclamation steps run so far, in order; each step method appends its own. */
    ghost var trace: seq<Step>

    constructor ()
      ensures activePlayers == map[] && trace == []
    {
      activePlayers := map[];
      trace := [];
    }

    /** onPlayerMove: the mover's entry becomes `now`, overwriting any earlier time; no other entry changes. */
    method OnPlayerMove(name: string, now: int)
      modifies this
      ensures name in activePlayers && activePlayers[name] == now
      ensures activePlayers.Keys == old(activePlayers).Keys + {name}
      ensures forall other :: other != name && other in old(activePlayers) ==> activePlayers[other] == old(activePlayers)[other]
      ensures trace == old(trace)
    {
      activePlayers := activePlayers[name := now];
    }

    /** unloadInactivePlayerChunks: the online players whose last move is more than 300 s before `now`. */
    method UnloadInactivePlayerChunks(online: seq<OnlinePlayer>, now: int) returns (idle: seq<OnlinePlayer>)
      modifies this
      ensures idle == InactivePlayers(activePlayers, online, now)
      ensures activePlayers == old(activePlayers)
      ensures trace == old(trace) + [InactivePlayerChunksUnloaded]
    {
      idle := [];
      var i := 0;
      while i < |online|
        invariant 0 <= i <= |online|
        invariant idle == InactivePlayers(activePlayers, online[..i], now)
      {
        var player := online[i];
        var lastActive := if player.name in activePlayers then activePlayers[player.name] else now;
        if now - lastActive > InactivityLimit {
          idle := idle + [player];
        }
        assert online[..i + 1][..i] == online[..i];
        i := i + 1;
      }
      assert online[..i] == online;
      trace := trace + [InactivePlayerChunksUnloaded];
    }

    /** clearInactivePlayerData: the offline players who last played more than a week before `now`. */
    method ClearInactivePlayerData(offline: seq<OfflinePlayer>, now: int) returns (removed: seq<OfflinePlayer>)
      modifies this
      ensures removed == StalePlayers(offline, now)
      ensures activePlayers == old(activePlayers)
      ensures trace == old(trace) + [InactivePlayerDataCleared]
    {
      removed := [];
      var i := 0;
      while i < |offline|
        invariant 0 <= i <= |offline|
        invariant removed == StalePlayers(offline[..i], now)
      {
        var player := offline[i];
        if player.lastPlayed < now - StaleDataLimit {
          removed := removed + [player];
        }
        assert offline[..i + 1][..i] == offline[..i];
        i := i + 1;
      }
      assert offline[..i] == offline;
      trace := trace + [InactivePlayerDataCleared];
    }

    /**
     * clearUnusedEntities: every entity of every world, tested against every
     * configured type name; an entity is flagged once for each name that matches.
     */
    method ClearUnusedEntities(worlds: seq<World>, cleanupEntities: Option<seq<string>>) returns (despawned: seq<Entity>)
      modifies this
      ensures despawned == FlagTrace(worlds, CleanupEntityTypes(cleanupEntities))
      ensures activePlayers == old(activePlayers)
      ensures trace == old(trace) + [EntitiesCleared]
    {
      var types := CleanupEntityTypes(cleanupEntities);
      despawned := [];
      var w := 0;
      while w < |worlds|
        invariant 0 <= w <= |worlds|
        invariant despawned == FlagTrace(worlds[..w], types)
        invariant activePlayers == old(activePlayers) && trace == old(trace)
      {
        var flags := FlagWorldEntities(worlds[w].entities, types);
        despawned := despawned + flags;
        assert worlds[..w + 1][..w] == worlds[..w];
        w := w + 1;
      }
      assert worlds[..w] == worlds;
      trace := trace + [EntitiesCleared];
    }

    /** The middle loop of clearUnusedEntities: the entities of one world, in order. */
    method FlagWorldEntities(entities: seq<Entity>, types: seq<string>) returns (flags: seq<Entity>)
      ensures flags == EntityFlags(entities, types)
    {
      flags := [];
      var i := 0;
      while i < |entities|
        invariant 0 <= i <= |entities|
        invariant flags == EntityFlags(entities[..i], types)
      {
        var matched := FlagEntity(entities[i], types);
        flags := flags + matched;
        assert entities[..i + 1][..i] == entities[..i];
        i := i + 1;
      }
      assert entities[..i] == entities;
    }

    /** The inner loop of clearUnusedEntities: one entity against each configured name. */
    method FlagEntity(entity: Entity, types: seq<string>) returns (flags: seq<Entity>)
      ensures flags == Matches(entity, types)
    {
      flags := [];
      var t := 0;
      while t < |types|
        invariant 0 <= t <= |types|
        invariant flags == Matches(entity, types[..t])
      {
        if entity.typeName == types[t] {
          flags := flags + [entity];
        }
        assert types[..t + 1][..t] == types[..t];
        t := t + 1;
      }
      assert types[..t] == types;
    }

    /** unloadUnusedChunks: every world is asked to unload its unused chunks, once each, in order. */
    method UnloadUnusedChunks(worlds: seq<World>) returns (unloaded: seq<string>)
      modifies this
      ensures |unloaded| == |worlds|
      ensures forall i :: 0 <= i < |worlds| ==> unloaded[i] == worlds[i].name
      ensures activePlayers == old(activePlayers)
      ensures trace == old(trace) + [ChunksUnloaded]
    {
      unloaded := [];
      var i := 0;
      while i < |worlds|
        invariant 0 <= i <= |worlds|
        invariant |unloaded| == i
        invariant forall k :: 0 <= k < i ==> unloaded[k] == worlds[k].name
      {
        unloaded := unloaded + [worlds[i].name];
        i := i + 1;
      }
      trace := trace + [ChunksUnloaded];
    }

    /**
     * optimizeServer: entities, then all worlds' chunks, then inactive players'
     * worlds, then stale offline data, every step running and none changing
     * the movement map.
     */
    method OptimizeServer(worlds: seq<World>, online: seq<OnlinePlayer>, offline: seq<OfflinePlayer>,
                          cleanupEntities: Option<seq<string>>, now: int) returns (result: Optimization)
      modifies this
      ensures trace == old(trace) + [EntitiesCleared, ChunksUnloaded, InactivePlayerChunksUnloaded, InactivePlayerDataCleared]
      ensures activePlayers == old(activePlayers)
      ensures result.despawned == FlagTrace(worlds, CleanupEntityTypes(cleanupEntities))
      ensures |result.unloadedWorlds| == |worlds| && forall i :: 0 <= i < |worlds| ==> result.unloadedWorlds[i] == worlds[i].name
      ensures result.idlePlayers == InactivePlayers(activePlayers, online, now)
      ensures result.removedPlayers == StalePlayers(offline, now)
    {
      var despawned := ClearUnusedEntities(worlds, cleanupEntities);
      var unloadedWorlds := UnloadUnusedChunks(worlds);
      var idlePlayers := UnloadInactivePlayerChunks(online, now);
      var removedPlayers := ClearInactivePlayerData(offline, now);
      result := Optimization(despawned, unloadedWorlds, idlePlayers, removedPlayers);
    }
  }

  /**
   * A player who moved at time t and is then checked: not unloaded at t + 300,
   * unloaded at t + 301; a player who never moved is not unloaded.
   */
  method ActivityScenario(t: int) returns (atLimit: seq<OnlinePlayer>, pastLimit: seq<OnlinePlayer>)
    ensures atLimit == [] && pastLimit == [OnlinePlayer("steve", "world")]
  {
    var steve := OnlinePlayer("steve", "world");
    var alex := OnlinePlayer("alex", "world");
    var plugin := new Main();
    plugin.OnPlayerMove("steve", t);
    atLimit := plugin.UnloadInactivePlayerChunks([steve, alex], t + 300);
    pastLimit := plugin.UnloadInactivePlayerChunks([steve, alex], t + 301);
    assert [steve, alex][..1] == [steve];
    assert [steve][..0] == [];
  }
}
