/** Registration of the slash commands at start-up: `UffBot.command_init`
    clears the global commands, then adds an `sb` group to every active guild
    and tries to sync it, carrying on past guilds that refuse. */
module Bot {

  type GuildId = int

  /** The name of the command group added to each guild. */
  const GroupName: string := "sb"

  /** A call made on the command tree, in the order made. A guild sync
      records whether it went through (`false`: it raised `Forbidden`). */
  datatype TreeEvent = ClearGlobal | SyncGlobal | AddGroup(guild: GuildId) | GuildSync(guild: GuildId, ok: bool)

  /** How `command_init` ends: it returns, or `add_command` raised
      `CommandAlreadyRegistered` at the active guild at position `index`,
      which ends it there (only `Forbidden` is caught). */
  datatype InitOutcome = Completed | AlreadyRegistered(index: nat)

  /** How many active guilds `command_init` got through: all of them, or
      those before the one where it raised. */
  function Handled(outcome: InitOutcome, total: nat): nat
  {
    if outcome.Completed? then total else outcome.index
  }

  /** A log line `command_init` writes per guild. */
  datatype LogLine = SyncedGuild(guild: GuildId) | NoAccess(guild: GuildId)

  /** The bot's command tree: the global commands, the commands added per
      guild, and the calls made on it. Whether the platform lets a guild
      sync is an oracle, the set of guilds that answer `Forbidden`. */
  class CommandTree {
    var globalCommands: seq<string>
    var guildCommands: map<GuildId, seq<string>>
    var history: seq<TreeEvent>

    constructor ()
      ensures globalCommands == [] && guildCommands == map[] && history == []
    {
      globalCommands := [];
      guildCommands := map[];
      history := [];
    }

    /** `clear_commands(guild=None)`. */
    method ClearCommands()
      modifies this
      ensures globalCommands == [] && guildCommands == old(guildCommands)
      ensures history == old(history) + [ClearGlobal]
    {
      globalCommands := [];
      history := history + [ClearGlobal];
    }

    /** `sync()` of the global commands. */
    method Sync()
      modifies this
      ensures globalCommands == old(globalCommands) && guildCommands == old(guildCommands)
      ensures history == old(history) + [SyncGlobal]
    {
      history := history + [SyncGlobal];
    }

    /** `add_command(group, guild=guild)`: the guild's commands are keyed by
        name, so adding a name the guild already holds raises
        `CommandAlreadyRegistered` (`raised`) and changes nothing. */
    method AddCommand(name: string, guild: GuildId) returns (raised: bool)
      modifies this
      ensures raised <==> guild in old(guildCommands) && name in old(guildCommands)[guild]
      ensures globalCommands == old(globalCommands)
      ensures raised ==> guildCommands == old(guildCommands) && history == old(history)
      ensures !raised ==> guildCommands == WithCommand(old(guildCommands), guild, name)
      ensures !raised ==> history == old(history) + [AddGroup(guild)]
    {
      raised := guild in guildCommands && name in guildCommands[guild];
      if !raised {
        guildCommands := WithCommand(guildCommands, guild, name);
        history := history + [AddGroup(guild)];
      }
    }

    /** `sync(guild=guild)`: `ok` is false when it raises `Forbidden`. */
    method SyncGuild(guild: GuildId, forbidden: set<GuildId>) returns (ok: bool)
      modifies this
      ensures ok <==> guild !in forbidden
      ensures globalCommands == old(globalCommands) && guildCommands == old(guildCommands)
      ensures history == old(history) + [GuildSync(guild, ok)]
    {
      ok := guild !in forbidden;
      history := history + [GuildSync(guild, ok)];
    }
  }

  /** The guild's command list with one more command. */
  function WithCommand(m: map<GuildId, seq<string>>, guild: GuildId, name: string): map<GuildId, seq<string>>
  {
    m[guild := (if guild in m then m[guild] else []) + [name]]
  }

  /** The per-guild calls of `command_init`, guild by guild: an add, then a
      sync that fails exactly for forbidden guilds. */
  function FanOut(ids: seq<GuildId>, forbidden: set<GuildId>): seq<TreeEvent>
  {
    if ids == [] then []
    else FanOut(ids[..|ids| - 1], forbidden) + [AddGroup(ids[|ids| - 1]), GuildSync(ids[|ids| - 1], ids[|ids| - 1] !in forbidden)]
  }

  /** All calls of `command_init`: the global reset first, then the fan-out. */
  function InitTrace(ids: seq<GuildId>, forbidden: set<GuildId>): seq<TreeEvent>
  {
    [ClearGlobal, SyncGlobal] + FanOut(ids, forbidden)
  }

  /** The guild command lists after the fan-out has added a group to each. */
  function Registered(m: map<GuildId, seq<string>>, ids: seq<GuildId>): map<GuildId, seq<string>>
  {
    if ids == [] then m else WithCommand(Registered(m, ids[..|ids| - 1]), ids[|ids| - 1], GroupName)
  }

  /** The guild already holds the `sb` group when the fan-out reaches its
      `k`-th entry, so `add_command` raises there. */
  predicate ClashAt(m: map<GuildId, seq<string>>, ids: seq<GuildId>, k: nat)
    requires k < |ids|
  {
    var before := Registered(m, ids[..k]);
    ids[k] in before && GroupName in before[ids[k]]
  }

  /** One more guild extends the calls, the command lists and the log by
      that guild's share. */
  lemma {:induction false} PrefixStep(m: map<GuildId, seq<string>>, ids: seq<GuildId>, forbidden: set<GuildId>, i: nat)
    requires i < |ids|
    ensures FanOut(ids[..i + 1], forbidden) ==
      FanOut(ids[..i], forbidden) + [AddGroup(ids[i]), GuildSync(ids[i], ids[i] !in forbidden)]
    ensures Registered(m, ids[..i + 1]) == WithCommand(Registered(m, ids[..i]), ids[i], GroupName)
    ensures SyncLog(ids[..i + 1], forbidden) ==
      SyncLog(ids[..i], forbidden) + [if ids[i] in forbidden then NoAccess(ids[i]) else SyncedGuild(ids[i])]
  {
    assert ids[..i + 1][..i] == ids[..i];
  }

  /** The log of `command_init`: success for a guild whose sync went through,
      a warning for one that refused. */
  function SyncLog(ids: seq<GuildId>, forbidden: set<GuildId>): seq<LogLine>
  {
    if ids == [] then []
    else SyncLog(ids[..|ids| - 1], forbidden) + [if ids[|ids| - 1] in forbidden then NoAccess(ids[|ids| - 1]) else SyncedGuild(ids[|ids| - 1])]
  }

  /** The fan-out, call by call: guild `k` gets exactly one add (whether or
      not its sync is later refused) and then exactly one sync attempt, in the
      order of the guild list. */
  lemma {:induction false} FanOutAt(ids: seq<GuildId>, forbidden: set<GuildId>, k: nat)
    requires k < |ids|
    ensures |FanOut(ids, forbidden)| == 2 * |ids|
    ensures FanOut(ids, forbidden)[2 * k] == AddGroup(ids[k])
    ensures FanOut(ids, forbidden)[2 * k + 1] == GuildSync(ids[k], ids[k] !in forbidden)
  {
    var init := ids[..|ids| - 1];
    if k < |ids| - 1 {
      FanOutAt(init, forbidden, k);
    } else if init != [] {
      FanOutAt(init, forbidden, 0);
    }
  }

  /** The whole trace: the global commands are cleared and synced before any
      guild is touched; afterwards the guilds follow in order, two calls
      each, a refused sync not stopping the ones after it. */
  lemma InitTraceShape(ids: seq<GuildId>, forbidden: set<GuildId>)
    ensures |InitTrace(ids, forbidden)| == 2 + 2 * |ids|
    ensures InitTrace(ids, forbidden)[0] == ClearGlobal && InitTrace(ids, forbidden)[1] == SyncGlobal
    ensures forall k :: 0 <= k < |ids| ==>
      && InitTrace(ids, forbidden)[2 + 2 * k] == AddGroup(ids[k])
      && InitTrace(ids, forbidden)[3 + 2 * k] == GuildSync(ids[k], ids[k] !in forbidden)
  {
    if ids != [] {
      FanOutAt(ids, forbidden, 0);
    }
    forall k | 0 <= k < |ids|
      ensures InitTrace(ids, forbidden)[2 + 2 * k] == AddGroup(ids[k])
      ensures InitTrace(ids, forbidden)[3 + 2 * k] == GuildSync(ids[k], ids[k] !in forbidden)
    {
      FanOutAt(ids, forbidden, k);
    }
  }

  /** Every active guild ends up with the `sb` group, forbidden or not, and
      no other guild gains commands. */
  lemma {:induction false} RegisteredEveryGuild(m: map<GuildId, seq<string>>, ids: seq<GuildId>)
    ensures forall g :: g in Registered(m, ids) <==> g in m || g in ids
    ensures forall g :: g in ids ==> GroupName in Registered(m, ids)[g]
    ensures forall g :: g in m && g !in ids ==> Registered(m, ids)[g] == m[g]
  {
    if ids != [] {
      var init := ids[..|ids| - 1];
      RegisteredEveryGuild(m, init);
      assert forall g :: g in ids <==> g in init || g == ids[|ids| - 1];
    }
  }

  /** `add_command` raises at none of the first `n` active guilds. */
  predicate NoClashBefore(m: map<GuildId, seq<string>>, ids: seq<GuildId>, n: nat)
    requires n <= |ids|
  {
    n == 0 || (NoClashBefore(m, ids, n - 1) && !ClashAt(m, ids, n - 1))
  }

  /** `NoClashBefore`, guild by guild. */
  lemma {:induction false} NoClashBeforeEach(m: map<GuildId, seq<string>>, ids: seq<GuildId>, n: nat, k: nat)
    requires k < n <= |ids|
    requires NoClashBefore(m, ids, n)
    ensures !ClashAt(m, ids, k)
  {
    if k < n - 1 {
      NoClashBeforeEach(m, ids, n - 1, k);
    }
  }

  /** `add_command` raises at the `k`-th active guild exactly when that guild
      held the group before `command_init` ran or appears earlier in the
      list. */
  lemma ClashExactly(m: map<GuildId, seq<string>>, ids: seq<GuildId>, k: nat)
    requires k < |ids|
    ensures ClashAt(m, ids, k) <==> (ids[k] in m && GroupName in m[ids[k]]) || ids[k] in ids[..k]
  {
    var before := ids[..k];
    var g := ids[k];
    RegisteredEveryGuild(m, before);
    if g !in before && g in m {
      assert Registered(m, before)[g] == m[g];
    }
  }

  /** On a fresh tree with distinct guild ids no `add_command` raises. */
  lemma FreshTreeNeverClashes(ids: seq<GuildId>, k: nat)
    requires k < |ids|
    requires forall i, j :: 0 <= i < j < |ids| ==> ids[i] != ids[j]
    ensures !ClashAt(map[], ids, k)
  {
    ClashExactly(map[], ids, k);
  }

  /** A second `command_init` over the same non-empty guild list (another
      `on_ready`) raises at its first guild: the tree still holds the group. */
  lemma SecondInitClashes(m: map<GuildId, seq<string>>, ids: seq<GuildId>)
    requires ids != []
    ensures ClashAt(Registered(m, ids), ids, 0)
  {
    RegisteredEveryGuild(m, ids);
    assert ids[0] in ids;
  }

  /** Success is logged exactly for the active guilds whose sync did not
      raise, and the warning exactly for those that refused. */
  lemma {:induction false} SyncLogExact(ids: seq<GuildId>, forbidden: set<GuildId>, g: GuildId)
    ensures |SyncLog(ids, forbidden)| == |ids|
    ensures SyncedGuild(g) in SyncLog(ids, forbidden) <==> g in ids && g !in forbidden
    ensures NoAccess(g) in SyncLog(ids, forbidden) <==> g in ids && g in forbidden
  {
    if ids != [] {
      var init := ids[..|ids| - 1];
      SyncLogExact(init, forbidden, g);
      assert forall x :: x in ids <==> x in init || x == ids[|ids| - 1];
    }
  }

  /** Three guilds where the middle one refuses: the other two are synced and
      the refusal is only logged. */
  lemma MiddleGuildRefuses(a: GuildId, b: GuildId, c: GuildId)
    requires a != b && c != b
    ensures FanOut([a, b, c], {b}) ==
      [AddGroup(a), GuildSync(a, true), AddGroup(b), GuildSync(b, false), AddGroup(c), GuildSync(c, true)]
    ensures SyncLog([a, b, c], {b}) == [SyncedGuild(a), NoAccess(b), SyncedGuild(c)]
  {
    assert [a, b, c][..2] == [a, b];
    assert [a, b][..1] == [a];
    assert [a][..0] == [];
    assert FanOut([a], {b}) == [AddGroup(a), GuildSync(a, true)];
    assert FanOut([a, b], {b}) == [AddGroup(a), GuildSync(a, true), AddGroup(b), GuildSync(b, false)];
    assert SyncLog([a], {b}) == [SyncedGuild(a)];
    assert SyncLog([a, b], {b}) == [SyncedGuild(a), NoAccess(b)];
  }

  /** The bot, as far as command registration goes. */
  class UffBot {
    const activeGuildIds: seq<GuildId>
    const tree: CommandTree
    var log: seq<LogLine>

    constructor (activeGuildIds: seq<GuildId>)
      ensures this.activeGuildIds == activeGuildIds && fresh(tree)
      ensures tree.globalCommands == [] && tree.guildCommands == map[] && tree.history == [] && log == []
    {
      this.activeGuildIds := activeGuildIds;
      tree := new CommandTree();
      log := [];
    }

    /** One turn of `command_init`'s loop: add the group to the guild, then
        sync it and log the result; a raising `add_command` ends the turn
        before anything changes. */
    method AddToGuild(guild: GuildId, forbidden: set<GuildId>) returns (raised: bool)
      modifies this, tree
      ensures raised <==> guild in old(tree.guildCommands) && GroupName in old(tree.guildCommands)[guild]
      ensures tree.globalCommands == old(tree.globalCommands)
      ensures raised ==>
        tree.history == old(tree.history) && tree.guildCommands == old(tree.guildCommands) && log == old(log)
      ensures !raised ==>
        && tree.history == old(tree.history) + [AddGroup(guild), GuildSync(guild, guild !in forbidden)]
        && tree.guildCommands == WithCommand(old(tree.guildCommands), guild, GroupName)
        && log == old(log) + [if guild in forbidden then NoAccess(guild) else SyncedGuild(guild)]
    {
      raised := tree.AddCommand(GroupName, guild);
      if raised {
        return;
      }
      var ok := tree.SyncGuild(guild, forbidden);
      if ok {
        log := log + [SyncedGuild(guild)];
      } else {
        log := log + [NoAccess(guild)];
      }
    }

    /** `command_init`: the global commands are cleared and synced, then the
        guilds are handled in order up to the first one where `add_command`
        raises, or all of them. */
    method CommandInit(forbidden: set<GuildId>) returns (outcome: InitOutcome)
      modifies this, tree
      ensures Handled(outcome, |activeGuildIds|) <= |activeGuildIds|
      ensures NoClashBefore(old(tree.guildCommands), activeGuildIds, Handled(outcome, |activeGuildIds|))
      ensures outcome.AlreadyRegistered? ==> outcome.index < |activeGuildIds| && ClashAt(old(tree.guildCommands), activeGuildIds, outcome.index)
      ensures tree.history ==
        old(tree.history) + InitTrace(activeGuildIds[..Handled(outcome, |activeGuildIds|)], forbidden)
      ensures tree.globalCommands == []
      ensures tree.guildCommands == Registered(old(tree.guildCommands), activeGuildIds[..Handled(outcome, |activeGuildIds|)])
      ensures log == old(log) + SyncLog(activeGuildIds[..Handled(outcome, |activeGuildIds|)], forbidden)
    {
      tree.ClearCommands();
      tree.Sync();
      ghost var start := tree.history;
      outcome := RegisterGuilds(forbidden);
      assert start == old(tree.history) + [ClearGlobal, SyncGlobal];
    }

    /** The loop of `command_init` over the active guilds. */
    method RegisterGuilds(forbidden: set<GuildId>) returns (outcome: InitOutcome)
      modifies this, tree
      ensures Handled(outcome, |activeGuildIds|) <= |activeGuildIds|
      ensures NoClashBefore(old(tree.guildCommands), activeGuildIds, Handled(outcome, |activeGuildIds|))
      ensures outcome.AlreadyRegistered? ==> outcome.index < |activeGuildIds| && ClashAt(old(tree.guildCommands), activeGuildIds, outcome.index)
      ensures tree.history == old(tree.history) + FanOut(activeGuildIds[..Handled(outcome, |activeGuildIds|)], forbidden)
      ensures tree.globalCommands == old(tree.globalCommands)
      ensures tree.guildCommands == Registered(old(tree.guildCommands), activeGuildIds[..Handled(outcome, |activeGuildIds|)])
      ensures log == old(log) + SyncLog(activeGuildIds[..Handled(outcome, |activeGuildIds|)], forbidden)
    {
      ghost var commands := tree.guildCommands;
      var i := 0;
      while i < |activeGuildIds|
        invariant 0 <= i <= |activeGuildIds|
        invariant NoClashBefore(commands, activeGuildIds, i)
        invariant tree.history == old(tree.history) + FanOut(activeGuildIds[..i], forbidden)
        invariant tree.globalCommands == old(tree.globalCommands)
        invariant tree.guildCommands == Registered(commands, activeGuildIds[..i])
        invariant log == old(log) + SyncLog(activeGuildIds[..i], forbidden)
      {
        var raised := AddToGuild(activeGuildIds[i], forbidden);
        if raised {
          assert ClashAt(commands, activeGuildIds, i);
          return AlreadyRegistered(i);
        }
        assert !ClashAt(commands, activeGuildIds, i);
        PrefixStep(commands, activeGuildIds, forbidden, i);
        i := i + 1;
      }
      assert activeGuildIds[..i] == activeGuildIds;
      return Completed;
    }
  }
}
