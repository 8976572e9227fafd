/**
 * What each reclamation step of optimizeServer selects, as functions over the
 * lists the server hands out: which online players have their world's chunks
 * unloaded for inactivity, which offline players have their data removed, and
 * which entities are flagged for despawn. The plugin's methods are proved to
 * compute exactly these selections.
 */
module Selection {
  import opened Wrappers

  /** Seconds without movement before an online player counts as inactive (5 minutes). */
  const InactivityLimit: int := 300
  /** Seconds since the last login before an offline player's data is removed (1 week). */
  const StaleDataLimit: int := 604800
  /** The value of the "cleanup-entities" setting when the configuration has none. */
  const DefaultCleanupEntities: seq<string> := ["ItemEntity"]

  datatype OnlinePlayer = OnlinePlayer(name: string, world: string)
  datatype OfflinePlayer = OfflinePlayer(name: string, lastPlayed: int)
  /** An entity and the name of its type (the short class name under pocketmine\entity). */
  datatype Entity = Entity(id: nat, typeName: string)
  datatype World = World(name: string, entities: seq<Entity>)

  // ---------------------------------------------------------------------------
  // Inactive online players
  // ---------------------------------------------------------------------------

  /** `activePlayers[name] ?? time()`: a player with no recorded movement counts as active now. */
  function LastActive(activePlayers: map<string, int>, name: string, now: int): int {
    if name in activePlayers then activePlayers[name] else now
  }

  predicate IsInactive(activePlayers: map<string, int>, name: string, now: int) {
    now - LastActive(activePlayers, name, now) > InactivityLimit
  }

  /** The online players, in order, whose world's chunks are unloaded for inactivity. */
  function InactivePlayers(activePlayers: map<string, int>, online: seq<OnlinePlayer>, now: int): (r: seq<OnlinePlayer>)
    ensures |r| <= |online|
    ensures forall p :: p in r ==> p in online && IsInactive(activePlayers, p.name, now)
  {
    if online == [] then []
    else
      var last := online[|online| - 1];
      InactivePlayers(activePlayers, online[..|online| - 1], now)
      + (if IsInactive(activePlayers, last.name, now) then [last] else [])
  }

  /** A player is selected iff they are online, have a recorded movement, and it is more than 300 s old. */
  lemma {:induction false} InactivePlayersMembership(activePlayers: map<string, int>, online: seq<OnlinePlayer>, now: int, p: OnlinePlayer)
    ensures p in InactivePlayers(activePlayers, online, now)
            <==> p in online && p.name in activePlayers && now - activePlayers[p.name] > InactivityLimit
    decreases |online|
  {
    if online != [] {
      var init := online[..|online| - 1];
      assert online == init + [online[|online| - 1]];
      InactivePlayersMembership(activePlayers, init, now, p);
    }
  }

  /** A player whose movement was never recorded is never selected. */
  lemma UnseenPlayerNeverSelected(activePlayers: map<string, int>, online: seq<OnlinePlayer>, now: int, p: OnlinePlayer)
    requires p.name !in activePlayers
    ensures p !in InactivePlayers(activePlayers, online, now)
  {
    InactivePlayersMembership(activePlayers, online, now, p);
  }

  /** After a move recorded at time t, the mover is selected at `now` iff more than 300 s have passed since t. */
  lemma MovedPlayerSelection(activePlayers: map<string, int>, online: seq<OnlinePlayer>, t: int, now: int, p: OnlinePlayer)
    requires p in online
    ensures p in InactivePlayers(activePlayers[p.name := t], online, now) <==> now - t > InactivityLimit
  {
    InactivePlayersMembership(activePlayers[p.name := t], online, now, p);
  }

  /** Recording a move for one player does not change whether any other player is selected. */
  lemma MoveLeavesOthersUnchanged(activePlayers: map<string, int>, online: seq<OnlinePlayer>, name: string, t: int, now: int, p: OnlinePlayer)
    requires p.name != name
    ensures p in InactivePlayers(activePlayers[name := t], online, now) <==> p in InactivePlayers(activePlayers, online, now)
  {
    InactivePlayersMembership(activePlayers[name := t], online, now, p);
    InactivePlayersMembership(activePlayers, online, now, p);
  }

  // ---------------------------------------------------------------------------
  // Stale offline players
  // ---------------------------------------------------------------------------

  predicate IsStale(p: OfflinePlayer, now: int) {
    p.lastPlayed < now - StaleDataLimit
  }

  /** The offline players, in order, whose data is removed. */
  function StalePlayers(offline: seq<OfflinePlayer>, now: int): (r: seq<OfflinePlayer>)
    ensures |r| <= |offline|
    ensures forall p :: p in r ==> p in offline && IsStale(p, now)
  {
    if offline == [] then []
    else
      var last := offline[|offline| - 1];
      StalePlayers(offline[..|offline| - 1], now) + (if IsStale(last, now) then [last] else [])
  }

  /** The offline players whose data is left in place. */
  function KeptPlayers(offline: seq<OfflinePlayer>, now: int): seq<OfflinePlayer> {
    if offline == [] then []
    else
      var last := offline[|offline| - 1];
      KeptPlayers(offline[..|offline| - 1], now) + (if IsStale(last, now) then [] else [last])
  }

  /** A player's data is removed iff they are listed and last played strictly more than a week ago. */
  lemma {:induction false} StalePlayersMembership(offline: seq<OfflinePlayer>, now: int, p: OfflinePlayer)
    ensures p in StalePlayers(offline, now) <==> p in offline && p.lastPlayed < now - StaleDataLimit
    decreases |offline|
  {
    if offline != [] {
      var init := offline[..|offline| - 1];
      assert offline == init + [offline[|offline| - 1]];
      StalePlayersMembership(init, now, p);
    }
  }

  /** Every listed player is either removed or kept, never both and never lost. */
  lemma {:induction false} StaleAndKeptPartition(offline: seq<OfflinePlayer>, now: int)
    ensures multiset(StalePlayers(offline, now)) + multiset(KeptPlayers(offline, now)) == multiset(offline)
    ensures forall p :: p in KeptPlayers(offline, now) ==> !IsStale(p, now)
    decreases |offline|
  {
    if offline != [] {
      var init := offline[..|offline| - 1];
      assert offline == init + [offline[|offline| - 1]];
      StaleAndKeptPartition(init, now);
    }
  }

  /** One player last seen 8 days ago and one 6 days ago: only the first is removed. */
  lemma StaleExample(now: int)
    ensures StalePlayers([OfflinePlayer("A", now - 8 * 86400), OfflinePlayer("B", now - 6 * 86400)], now)
            == [OfflinePlayer("A", now - 8 * 86400)]
  {
    var a, b := OfflinePlayer("A", now - 8 * 86400), OfflinePlayer("B", now - 6 * 86400);
    assert [a, b][..1] == [a];
    assert [a][..0] == [];
    assert StalePlayers([a], now) == [a];
    assert !IsStale(b, now);
  }

  // ---------------------------------------------------------------------------
  // Entities flagged for despawn
  // ---------------------------------------------------------------------------

  /** The configured type names, or ["ItemEntity"] when "cleanup-entities" is not set. */
  function CleanupEntityTypes(cleanupEntities: Option<seq<string>>): (types: seq<string>)
    ensures cleanupEntities.None? ==> types == DefaultCleanupEntities
    ensures cleanupEntities.Some? ==> types == cleanupEntities.value
  {
    cleanupEntities.GetOr(DefaultCleanupEntities)
  }

  /** The despawn flags one entity receives: one for every configured name equal to its type. */
  function Matches(e: Entity, types: seq<string>): (r: seq<Entity>)
    ensures |r| <= |types|
    ensures forall x :: x in r ==> x == e && e.typeName in types
  {
    if types == [] then []
    else Matches(e, types[..|types| - 1]) + (if types[|types| - 1] == e.typeName then [e] else [])
  }

  /** The flags raised while scanning one world's entities in order. */
  function EntityFlags(entities: seq<Entity>, types: seq<string>): (r: seq<Entity>)
    ensures forall x :: x in r ==> x in entities && x.typeName in types
  {
    if entities == [] then []
    else EntityFlags(entities[..|entities| - 1], types) + Matches(entities[|entities| - 1], types)
  }

  /** The flags raised while scanning every world in order. */
  function FlagTrace(worlds: seq<World>, types: seq<string>): (r: seq<Entity>)
    ensures forall x :: x in r ==> x.typeName in types
  {
    if worlds == [] then []
    else FlagTrace(worlds[..|worlds| - 1], types) + EntityFlags(worlds[|worlds| - 1].entities, types)
  }

  /** An entity is flagged once per configured name equal to its type, and nothing else is flagged. */
  lemma {:induction false} MatchesCount(e: Entity, types: seq<string>)
    ensures |Matches(e, types)| == multiset(types)[e.typeName]
    ensures forall x :: x in Matches(e, types) ==> x == e
    decreases |types|
  {
    if types != [] {
      var init := types[..|types| - 1];
      assert types == init + [types[|types| - 1]];
      MatchesCount(e, init);
    }
  }

  lemma {:induction false} EntityFlagsMembership(entities: seq<Entity>, types: seq<string>, e: Entity)
    ensures e in EntityFlags(entities, types) <==> e in entities && e.typeName in types
    decreases |entities|
  {
    if entities != [] {
      var init := entities[..|entities| - 1];
      var last := entities[|entities| - 1];
      assert entities == init + [last];
      EntityFlagsMembership(init, types, e);
      MatchesCount(last, types);
      var m := Matches(last, types);
      assert e in m <==> e == last && e.typeName in types by {
        if e == last && e.typeName in types {
          assert multiset(types)[e.typeName] > 0;
          assert m[0] in m;
        }
        if e in m {
          assert |m| > 0;
          assert e.typeName in multiset(types);
        }
      }
    }
  }

  /** An entity is flagged iff it is in some world and its type matches at least one configured name. */
  lemma {:induction false} FlagTraceMembership(worlds: seq<World>, types: seq<string>, e: Entity)
    ensures e in FlagTrace(worlds, types)
            <==> e.typeName in types && exists i :: 0 <= i < |worlds| && e in worlds[i].entities
    decreases |worlds|
  {
    if worlds != [] {
      var init := worlds[..|worlds| - 1];
      var last := worlds[|worlds| - 1];
      FlagTraceMembership(init, types, e);
      EntityFlagsMembership(last.entities, types, e);
      if e in last.entities {
        assert e in worlds[|worlds| - 1].entities;
      }
      if exists i :: 0 <= i < |worlds| && e in worlds[i].entities {
        var i :| 0 <= i < |worlds| && e in worlds[i].entities;
        if i < |worlds| - 1 {
          assert e in init[i].entities;
        }
      }
    }
  }

  /** A configured name that matches no entity's type flags nothing. */
  lemma {:induction false} UnmatchedNameFlagsNothing(worlds: seq<World>, types: seq<string>, name: string)
    requires forall i, e :: 0 <= i < |worlds| && e in worlds[i].entities ==> e.typeName != name
    ensures FlagTrace(worlds, types + [name]) == FlagTrace(worlds, types)
    decreases |worlds|
  {
    if worlds != [] {
      var init := worlds[..|worlds| - 1];
      UnmatchedNameFlagsNothing(init, types, name);
      UnmatchedNameInWorld(worlds[|worlds| - 1].entities, types, name);
    }
  }

  lemma {:induction false} UnmatchedNameInWorld(entities: seq<Entity>, types: seq<string>, name: string)
    requires forall e :: e in entities ==> e.typeName != name
    ensures EntityFlags(entities, types + [name]) == EntityFlags(entities, types)
    decreases |entities|
  {
    if entities != [] {
      var init := entities[..|entities| - 1];
      assert forall e :: e in init ==> e in entities;
      UnmatchedNameInWorld(init, types, name);
      assert (types + [name])[..|types|] == types;
    }
  }

  /** With the default setting only entities of type "ItemEntity" are flagged, each exactly once. */
  lemma DefaultFlagsItemEntitiesOnce(worlds: seq<World>, e: Entity)
    ensures e in FlagTrace(worlds, CleanupEntityTypes(None))
            <==> e.typeName == "ItemEntity" && exists i :: 0 <= i < |worlds| && e in worlds[i].entities
    ensures |Matches(e, CleanupEntityTypes(None))| == if e.typeName == "ItemEntity" then 1 else 0
  {
    FlagTraceMembership(worlds, DefaultCleanupEntities, e);
    MatchesCount(e, DefaultCleanupEntities);
  }
}
