# LagMonitor in Dafny

A model of the decision logic of LagMonitor, a PocketMine-MP plugin that watches
server health and reclaims resources. The plugin's single class
`skyss0fly\LagMonitor\Main` does four things:

- **memory-limit parsing.** `getMemoryLimitInMB` turns PHP's `memory_limit`
  setting into megabytes. It tests for an upper-case `M`, then for an upper-case
  `G`, and otherwise reads the string as a byte count. Every branch goes through
  PHP's `(float)` cast of a string.
- **threshold checks.** `checkServerPerformance` computes the used-memory
  percentage. It then broadcasts a low-TPS warning when TPS < 18.0 and a
  high-memory warning when the percentage > 80. The two tests are independent.
- **activity tracking.** `onPlayerMove` records each player's last movement time
  in the `activePlayers` map.
- **reclamation.** `optimizeServer` runs four steps in order:
  1. it flags the configured entity types for despawn;
  2. it unloads unused chunks in every world;
  3. it unloads the unused chunks of the world of every online player idle for more than 300 s;
  4. it removes the data of offline players not seen for more than 604800 s.

Files:

- `wrappers.dfy`: the `Option` and `Result` datatypes.
- `php_string.dfy` (module `PhpString`): the two PHP primitives the parser relies on.
  - `RemoveChar` is `str_replace` of one character by the empty string.
  - `ToFloat` is the `(float)` cast. It skips leading whitespace, then reads a sign,
    integer digits, a fraction and an exponent, and yields 0 when there is no
    numeral.
  - `Render` writes a natural number in decimal. It exists so lemmas can speak
    about every "<n>M", "<n>G" and "<n>" string at once.
- `memory_limit.dfy` (module `MemoryLimit`): `GetMemoryLimitInMB` and lemmas about
  each branch.
- `performance.dfy` (module `Performance`): the thresholds, the percentage and the
  warnings.
  - A limit that reads as 0 is a `DivisionByZero` failure. PHP 8 throws
    `DivisionByZeroError` on line 51, before either warning is sent.
- `selection.dfy` (module `Selection`): specification functions for what each
  reclamation step selects, with lemmas about them.
- `lag_monitor.dfy` (module `LagMonitor`): class `Main`.
  - Its field `activePlayers: map<string, int>` is updated in place by
    `OnPlayerMove`.
  - Its methods loop over the server's lists like the plugin's `foreach`
    statements. Each method is proved to return exactly what the matching
    `Selection` function selects.
  - A ghost field `trace` records the steps run so far. Each step method appends its own step, so `OptimizeServer` is proved to run them in the source's order. It returns each step's selection.

Inputs and abstractions:

- Sensor readings are parameters:
  - `getTicksPerSecond()` is the real `tps`;
  - `memory_get_usage(true)` is the natural `usageBytes`;
  - `ini_get('memory_limit')` is a string.
- `time()` is an integer `now` in seconds.
- The server's lists are sequences of value records: worlds with their entities,
  online players, and offline players with `lastPlayed`.
- Floats are exact reals.

Behaviours of the code that the model keeps as they are:

- a limit that reads as 0 makes the division on line 51 throw `DivisionByZeroError` (PHP 8); the model returns `Failure(DivisionByZero)`;
- a configured name that resolves to no class matches no entity (lines 91-92); the model flags nothing for it (`Selection.UnmatchedNameFlagsNothing`);
- entries in `activePlayers` are never removed, because line 137 is its only write.

## Model

| member | source | states |
|---|---|---|
| PhpString.RemoveChar | src/skyss0fly/LagMonitor/Main.php:143 | `str_replace(c, '', s)` leaves no `c` in the result and keeps the count of every other character |
| PhpString.RemoveCharAppend | src/skyss0fly/LagMonitor/Main.php:143 | deletion distributes over concatenation, so the remaining characters keep their order |
| PhpString.RemoveCharAbsent | src/skyss0fly/LagMonitor/Main.php:143 | a string without the character is returned unchanged |
| PhpString.ToFloat | src/skyss0fly/LagMonitor/Main.php:143-147 | PHP's `(float)` cast of a string: the value of its leading numeral, or 0 when there is none; defines what the ToFloatOf lemmas are about |
| PhpString.ToFloatOfRender | src/skyss0fly/LagMonitor/Main.php:143-147 | the `(float)` cast of a decimal integer followed by text that cannot continue a numeral is that integer |
| PhpString.ToFloatOfNonNumeric | src/skyss0fly/LagMonitor/Main.php:147 | a string whose first character cannot start a numeral casts to 0 |
| PhpString.ToFloatOfNegation | src/skyss0fly/LagMonitor/Main.php:147 | a leading minus sign negates the value cast |
| MemoryLimit.GetMemoryLimitInMB | src/skyss0fly/LagMonitor/Main.php:141-149 | the M test, then the G test, then the byte count, each through the `(float)` cast; defines the conversion the lemmas below are about |
| MemoryLimit.MegabyteSuffix | src/skyss0fly/LagMonitor/Main.php:142-143 | "<n>M" is n megabytes |
| MemoryLimit.MegabyteTakesPrecedence | src/skyss0fly/LagMonitor/Main.php:142-145 | the M test comes before the G test: "<n>GM" and "<n>MG" are n megabytes, not n * 1024 |
| MemoryLimit.MegabyteLettersJoinDigits | src/skyss0fly/LagMonitor/Main.php:143 | every M is removed, not only a trailing one, so "<a>M<b>M" reads as the digits of a and b joined |
| MemoryLimit.GigabyteSuffix | src/skyss0fly/LagMonitor/Main.php:144-145 | "<n>G" without an M is n * 1024 megabytes |
| MemoryLimit.ByteCount | src/skyss0fly/LagMonitor/Main.php:146-147 | a bare "<n>" is n bytes, that is n / 1024² megabytes |
| MemoryLimit.OtherSuffixIsByteCount | src/skyss0fly/LagMonitor/Main.php:142-147 | the letter tests are case-sensitive: "<n>m", "<n>g", "<n>K" are byte counts of n |
| MemoryLimit.NonNumericIsZero | src/skyss0fly/LagMonitor/Main.php:146-147 | with neither letter and no leading numeral the limit is 0 |
| MemoryLimit.NegativeByteCount | src/skyss0fly/LagMonitor/Main.php:146-147 | "-<n>" is a negative byte count, −n / 1024² megabytes |
| MemoryLimit.ExampleMegabytes | src/skyss0fly/LagMonitor/Main.php:142-143 | "512M" is 512 megabytes |
| MemoryLimit.ExampleGigabytes | src/skyss0fly/LagMonitor/Main.php:144-145 | "1G" is 1024 megabytes |
| MemoryLimit.ExampleBytes | src/skyss0fly/LagMonitor/Main.php:146-147 | "1073741824" is 1024 megabytes |
| MemoryLimit.ExampleLowercase | src/skyss0fly/LagMonitor/Main.php:142-147 | "512m" is 512 bytes, not 512 megabytes |
| MemoryLimit.ExampleUnlimited | src/skyss0fly/LagMonitor/Main.php:146-147 | PHP's "no limit" value "-1" reads below zero |
| Performance.MemoryUsageMB | src/skyss0fly/LagMonitor/Main.php:49 | the usage in megabytes times 1024² is the usage in bytes |
| Performance.UsedPercentage | src/skyss0fly/LagMonitor/Main.php:51 | defined iff the limit is non-zero, and then percentage × limit = usage × 100; a zero limit is DivisionByZero |
| Performance.Alerts | src/skyss0fly/LagMonitor/Main.php:53-59 | the low-TPS warning is raised iff tps < 18.0 and the memory warning iff percentage > 80; no other warning; low TPS comes before high memory |
| Performance.CheckServerPerformance | src/skyss0fly/LagMonitor/Main.php:47-60 | fails iff the limit reads as 0, so no warning is sent then; otherwise the warnings are those of the computed percentage |
| Performance.HighMemoryIffOverFourFifths | src/skyss0fly/LagMonitor/Main.php:51-57 | with a positive limit the memory warning fires iff usage × 5 > limit × 4 |
| Performance.AlertsIndependent | src/skyss0fly/LagMonitor/Main.php:53-59 | both, either or neither warning can fire; TPS 12.5 at 85.3% raises both, in that order |
| Performance.ThresholdsAreStrict | src/skyss0fly/LagMonitor/Main.php:14-15 | exactly 18.0 TPS and exactly 80% raise nothing |
| Performance.NonNumericLimitRaises | src/skyss0fly/LagMonitor/Main.php:50-51 | a memory_limit of "abc" makes the check fail with DivisionByZero |
| Performance.NegativeLimitNeverWarnsHighMemory | src/skyss0fly/LagMonitor/Main.php:51-57 | with a negative limit the check succeeds, never raises the memory warning, and raises the TPS warning iff tps < 18 |
| Performance.UnlimitedNeverWarnsHighMemory | src/skyss0fly/LagMonitor/Main.php:50-57 | under memory_limit "-1" the only warning that can fire is low TPS |
| Selection.LastActive | src/skyss0fly/LagMonitor/Main.php:114 | the recorded time of a player, or `now` when the map has no entry (`?? time()`) |
| Selection.IsInactive | src/skyss0fly/LagMonitor/Main.php:115 | a player is idle when now minus their last activity exceeds 300 |
| Selection.InactivePlayers | src/skyss0fly/LagMonitor/Main.php:113-115 | selects no more players than are online, and only online players who are idle |
| Selection.InactivePlayersMembership | src/skyss0fly/LagMonitor/Main.php:113-115 | an online player is selected iff they have an entry and now − entry > 300 |
| Selection.UnseenPlayerNeverSelected | src/skyss0fly/LagMonitor/Main.php:114 | a player with no entry counts as active now and is never selected |
| Selection.MovedPlayerSelection | src/skyss0fly/LagMonitor/Main.php:114-115 | after a move at time t the mover is selected at now iff now − t > 300 |
| Selection.MoveLeavesOthersUnchanged | src/skyss0fly/LagMonitor/Main.php:137 | recording one player's move does not change whether any other player is selected |
| Selection.IsStale | src/skyss0fly/LagMonitor/Main.php:127 | a player is stale when lastPlayed < now − 604800 |
| Selection.StalePlayers | src/skyss0fly/LagMonitor/Main.php:126-127 | selects no more players than are listed, and only listed players who are stale |
| Selection.StalePlayersMembership | src/skyss0fly/LagMonitor/Main.php:126-127 | an offline player's data is removed iff lastPlayed < now − 604800 |
| Selection.StaleAndKeptPartition | src/skyss0fly/LagMonitor/Main.php:126-131 | removed and kept players together are exactly the listed ones, and no kept player is stale |
| Selection.StaleExample | src/skyss0fly/LagMonitor/Main.php:124-127 | of a player last seen 8 days ago and one 6 days ago only the first is removed |
| Selection.CleanupEntityTypes | src/skyss0fly/LagMonitor/Main.php:86 | the configured list, or ["ItemEntity"] when "cleanup-entities" is unset |
| Selection.Matches | src/skyss0fly/LagMonitor/Main.php:90-94 | at most one flag per configured name, and every flag is the entity itself with a configured type |
| Selection.EntityFlags | src/skyss0fly/LagMonitor/Main.php:89-95 | every flag is an entity of that world whose type is configured |
| Selection.FlagTrace | src/skyss0fly/LagMonitor/Main.php:88-97 | every flag is an entity whose type is configured |
| Selection.MatchesCount | src/skyss0fly/LagMonitor/Main.php:90-94 | an entity is flagged once per configured name equal to its type, and only it is flagged |
| Selection.EntityFlagsMembership | src/skyss0fly/LagMonitor/Main.php:89-95 | within one world, an entity is flagged iff it is there and its type is configured |
| Selection.FlagTraceMembership | src/skyss0fly/LagMonitor/Main.php:88-97 | an entity is flagged iff it is in some world and its type matches at least one configured name |
| Selection.UnmatchedNameFlagsNothing | src/skyss0fly/LagMonitor/Main.php:90-94 | adding a name that matches no entity's type changes nothing that is flagged |
| Selection.DefaultFlagsItemEntitiesOnce | src/skyss0fly/LagMonitor/Main.php:86-94 | with the default setting exactly the ItemEntity entities are flagged, each once |
| LagMonitor.Main.constructor | src/skyss0fly/LagMonitor/Main.php:16 | the movement map starts empty and no step has run |
| LagMonitor.Main.OnPlayerMove | src/skyss0fly/LagMonitor/Main.php:135-138 | the mover's entry becomes now (overwriting), the keys grow by at most that name, every other entry is unchanged, and no step is recorded |
| LagMonitor.Main.UnloadInactivePlayerChunks | src/skyss0fly/LagMonitor/Main.php:110-120 | returns exactly InactivePlayers of the current map, in order; the map is unchanged and the trace gains this step |
| LagMonitor.Main.ClearInactivePlayerData | src/skyss0fly/LagMonitor/Main.php:123-132 | returns exactly StalePlayers, in order; the map is unchanged and the trace gains this step |
| LagMonitor.Main.ClearUnusedEntities | src/skyss0fly/LagMonitor/Main.php:85-99 | returns exactly FlagTrace over the configured (or default) names: worlds, then entities, then names, in order; the map is unchanged and the trace gains this step |
| LagMonitor.Main.FlagWorldEntities | src/skyss0fly/LagMonitor/Main.php:89-96 | the flags for one world are EntityFlags of its entities |
| LagMonitor.Main.FlagEntity | src/skyss0fly/LagMonitor/Main.php:90-95 | the flags for one entity are one copy per matching configured name |
| LagMonitor.Main.UnloadUnusedChunks | src/skyss0fly/LagMonitor/Main.php:102-107 | every world is unloaded once, in order; the map is unchanged and the trace gains this step |
| LagMonitor.Main.OptimizeServer | src/skyss0fly/LagMonitor/Main.php:75-82 | the trace grows by exactly the four steps in the order entities, chunks, inactive-player chunks, stale data (each appended by the step method it calls); the map is unchanged; each step's selection is the specified one |
| LagMonitor.ActivityScenario | src/skyss0fly/LagMonitor/Main.php:114-115 | a player who moved at t is not unloaded at t + 300 and is unloaded at t + 301; a player who never moved is not unloaded |

## Left out

- Plugin start-up (`onEnable`, lines 18-31) is not modelled. It registers the listener, saves the default config and schedules `checkServerPerformance` every 1200 ticks. That is runtime plumbing with nothing to state.
- `onCommand` (lines 34-44) is a switch over two command names, so it is not modelled.
- `displayPerformanceStats` (lines 63-72) is not modelled. It repeats the percentage computation and only sends messages.
- Broadcasts, player messages, logger output, `round($x, 2)` and colour codes are not modelled. Warnings carry the exact value, not the rounded one.
- Host calls are not made. `flagForDespawn`, `unloadChunks(true)`, `removePlayerData` and `broadcastMessage` are represented only by the selections the methods return and by the step trace.
- Entity type matching is equality of the configured name with the entity's type name. PHP's `instanceof` on `"pocketmine\entity\<name>"` also matches subclasses and depends on class resolution in the host, which is not part of this model.
- Floats are exact reals, so IEEE rounding is not modelled. Neither is overflow to INF for very large exponents in the `(float)` cast.
- The `(float)` cast skips leading whitespace before the numeral, following PHP's documented leading-numeric string rule. Hexadecimal, INF and NAN text are read as 0, as in PHP.
- Each step takes one `now`. The source calls `time()` again on each use. On line 114 `??` calls it only for a player with no entry, line 115 calls it once per player, and line 127 once per offline player. Those calls can differ by a second across a clock tick; the model ignores that.
- `lastPlayed` is compared with `now` in the same unit, seconds, as line 127 does. The unit the host actually reports is not part of this model.
- Unloading for an idle player acts on that player's whole world (line 116). The model returns the selected players; the player's world is recorded in `OnlinePlayer.world`.
- Host calls cannot fail in this model. In the source `optimizeServer` has no try/catch (lines 75-82), so a step that throws stops the steps after it.
- Idempotence of repeated `optimize` runs is not modelled, because it depends on host state.
- The config value is taken as a list of strings or as absent. Other YAML values are not modelled.
