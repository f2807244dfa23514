/**
 * The assistant's persisted database: per-guild settings, conversations,
 * and the settings part of the startup cleanup pass (role overrides and
 * blacklist entries that no longer resolve in their guild).
 */
module Settings {
  import Maps

  /** A stored memory: its text, its embedding vector, and who created it. */
  datatype Embedding = Embedding(text: string, embedding: seq<real>, aiCreated: bool)

  /** The fields of a guild's settings that the core reads or cleans. */
  datatype GuildSettings = GuildSettings(
    maxTokenRoleOverride: map<int, int>,
    maxRetentionRoleOverride: map<int, int>,
    modelRoleOverrides: map<int, string>,
    maxTimeRoleOverride: map<int, int>,
    blacklist: seq<int>,
    tutors: seq<int>,
    embeddings: map<string, Embedding>)

  /** The settings of a guild that never configured anything. */
  const DefaultSettings: GuildSettings := GuildSettings(map[], map[], map[], map[], [], [], map[])

  datatype Conversation = Conversation(messages: seq<string>)

  /** The root document: guild settings, conversations, and the persistence toggle. */
  datatype DB = DB(configs: map<int, GuildSettings>, conversations: map<string, Conversation>, persistentConversations: bool)

  /** `db.get_conf(gid)`: the guild's settings, or fresh defaults when it has none yet. */
  function GetConf(db: DB, gid: int): GuildSettings
  {
    if gid in db.configs then db.configs[gid] else DefaultSettings
  }

  /** The database after `get_conf(gid)`, which files the defaults it hands out. */
  function WithConf(db: DB, gid: int): (r: DB)
    ensures gid in r.configs && r.configs[gid] == GetConf(db, gid)
    ensures r.configs.Keys == db.configs.Keys + {gid}
    ensures forall g :: g in db.configs ==> r.configs[g] == db.configs[g]
    ensures r.conversations == db.conversations && r.persistentConversations == db.persistentConversations
  {
    db.(configs := db.configs[gid := GetConf(db, gid)])
  }

  /** What the host platform still knows about a guild: its role, member and channel ids. */
  datatype Guild = Guild(roles: set<int>, members: set<int>, channels: set<int>)

  /** `bot.get_guild(gid)` is truthy exactly for the keys. */
  type Guilds = map<int, Guild>

  /** A blacklisted id still names a role, a member, or a channel or thread of the guild. */
  predicate Resolves(g: Guild, id: int)
  {
    id in g.roles || id in g.members || id in g.channels
  }

  /** The blacklist with every id that no longer resolves left out, in the original order. */
  function KeepResolvable(bl: seq<int>, g: Guild): (r: seq<int>)
    decreases |bl|
  {
    if bl == [] then []
    else
      var last := bl[|bl| - 1];
      KeepResolvable(bl[..|bl| - 1], g) + (if Resolves(g, last) then [last] else [])
  }

  /** Every kept id resolves. */
  lemma {:induction false} KeepResolvableSound(bl: seq<int>, g: Guild)
    ensures |KeepResolvable(bl, g)| <= |bl|
    ensures AllResolve(KeepResolvable(bl, g), g)
    decreases |bl|
  {
    if bl != [] {
      var init := bl[..|bl| - 1];
      KeepResolvableSound(init, g);
      assert bl == init + [bl[|bl| - 1]];
    }
  }

  /** The blacklist is left as it is exactly when every id in it still resolves. */
  lemma {:induction false} KeepResolvableUnchangedIff(bl: seq<int>, g: Guild)
    ensures KeepResolvable(bl, g) == bl <==> AllResolve(bl, g)
    decreases |bl|
  {
    KeepResolvableSound(bl, g);
    if bl != [] {
      var init := bl[..|bl| - 1];
      KeepResolvableUnchangedIff(init, g);
      assert bl == init + [bl[|bl| - 1]];
      if KeepResolvable(bl, g) == bl {
        forall i | 0 <= i < |bl|
          ensures Resolves(g, bl[i])
        {
          assert bl[i] == KeepResolvable(bl, g)[i];
        }
      }
    }
  }

  lemma KeepResolvableIdempotent(bl: seq<int>, g: Guild)
    ensures KeepResolvable(KeepResolvable(bl, g), g) == KeepResolvable(bl, g)
  {
    KeepResolvableSound(bl, g);
    KeepResolvableUnchangedIff(KeepResolvable(bl, g), g);
  }

  /** `list.remove(x)`: the list without its first occurrence of `x`. */
  function RemoveFirst(s: seq<int>, x: int): (r: seq<int>)
    decreases |s|
  {
    if s == [] then []
    else if s[0] == x then s[1..]
    else [s[0]] + RemoveFirst(s[1..], x)
  }

  /** When the first occurrence of `x` follows a prefix free of `x`, removing it splices the two sides. */
  lemma {:induction false} RemoveFirstAfter(kept: seq<int>, x: int, rest: seq<int>)
    requires x !in kept
    ensures RemoveFirst(kept + ([x] + rest), x) == kept + rest
    decreases |kept|
  {
    if kept != [] {
      assert (kept + ([x] + rest))[1..] == kept[1..] + ([x] + rest);
      RemoveFirstAfter(kept[1..], x, rest);
    }
  }

  /**
   * The blacklist loop of `_cleanup_db`: iterate a copy, and remove each id
   * that no longer resolves from the live list. Since the copy visits every
   * occurrence, all occurrences of an unresolvable id go, and the order of
   * the rest is kept.
   */
  method PruneBlacklist(blacklist: seq<int>, g: Guild) returns (r: seq<int>, changed: bool)
    ensures r == KeepResolvable(blacklist, g)
    ensures changed <==> r != blacklist
  {
    r, changed := blacklist, false;
    var i := 0;
    while i < |blacklist|
      invariant 0 <= i <= |blacklist|
      invariant r == KeepResolvable(blacklist[..i], g) + blacklist[i..]
      invariant changed <==> !AllResolve(blacklist[..i], g)
    {
      AllResolveStep(blacklist, i, g);
      if !Resolves(g, blacklist[i]) {
        PruneDropStep(blacklist, i, g);
        r := RemoveFirst(r, blacklist[i]);
        changed := true;
      } else {
        PruneKeepStep(blacklist, i, g);
      }
      i := i + 1;
    }
    assert blacklist[..i] == blacklist;
    KeepResolvableUnchangedIff(blacklist, g);
  }

  predicate AllResolve(bl: seq<int>, g: Guild)
  {
    forall i :: 0 <= i < |bl| ==> Resolves(g, bl[i])
  }

  /** One step of the blacklist loop: the prefix resolves iff it did and the new id does. */
  lemma AllResolveStep(bl: seq<int>, i: nat, g: Guild)
    requires i < |bl|
    ensures AllResolve(bl[..i + 1], g) <==> AllResolve(bl[..i], g) && Resolves(g, bl[i])
  {
    assert bl[..i + 1][..i] == bl[..i];
    assert bl[..i + 1][i] == bl[i];
  }

  /** One step of the blacklist loop on the live list: a resolvable id stays. */
  lemma PruneKeepStep(bl: seq<int>, i: nat, g: Guild)
    requires i < |bl| && Resolves(g, bl[i])
    ensures KeepResolvable(bl[..i + 1], g) + bl[i + 1..] == KeepResolvable(bl[..i], g) + bl[i..]
  {
    var kept, rest := KeepResolvable(bl[..i], g), bl[i + 1..];
    assert bl[..i + 1][..i] == bl[..i];
    assert bl[..i + 1][i] == bl[i];
    assert bl[i..] == [bl[i]] + rest;
    assert (kept + [bl[i]]) + rest == kept + ([bl[i]] + rest);
  }

  /**
   * One step of the blacklist loop on the live list: removing the first
   * occurrence of an unresolvable id drops exactly the one being visited,
   * since the part already cleaned holds no unresolvable id.
   */
  lemma PruneDropStep(bl: seq<int>, i: nat, g: Guild)
    requires i < |bl| && !Resolves(g, bl[i])
    ensures KeepResolvable(bl[..i + 1], g) + bl[i + 1..] == RemoveFirst(KeepResolvable(bl[..i], g) + bl[i..], bl[i])
  {
    var kept, rest := KeepResolvable(bl[..i], g), bl[i + 1..];
    assert bl[..i + 1][..i] == bl[..i];
    assert bl[..i + 1][i] == bl[i];
    assert bl[i..] == [bl[i]] + rest;
    KeepResolvableSound(bl[..i], g);
    RemoveFirstAfter(kept, bl[i], rest);
  }

  /** Every role override names an existing role and every blacklisted id resolves. */
  predicate Clean(conf: GuildSettings, g: Guild)
  {
    && conf.maxTokenRoleOverride.Keys <= g.roles
    && conf.maxRetentionRoleOverride.Keys <= g.roles
    && conf.modelRoleOverrides.Keys <= g.roles
    && conf.maxTimeRoleOverride.Keys <= g.roles
    && AllResolve(conf.blacklist, g)
  }

  /** A guild's settings after cleanup: the four override maps and the blacklist are pruned. */
  function CleanSettings(conf: GuildSettings, g: Guild): GuildSettings
  {
    conf.(
      maxTokenRoleOverride := Maps.Restrict(conf.maxTokenRoleOverride, g.roles),
      maxRetentionRoleOverride := Maps.Restrict(conf.maxRetentionRoleOverride, g.roles),
      modelRoleOverrides := Maps.Restrict(conf.modelRoleOverrides, g.roles),
      maxTimeRoleOverride := Maps.Restrict(conf.maxTimeRoleOverride, g.roles),
      blacklist := KeepResolvable(conf.blacklist, g))
  }

  /**
   * Cleaned settings are clean; every override whose role exists is kept;
   * tutors and memories are untouched; and settings that were clean are
   * left as they are.
   */
  lemma CleanSettingsKeeps(conf: GuildSettings, g: Guild)
    ensures Clean(CleanSettings(conf, g), g)
    ensures CleanSettings(conf, g).tutors == conf.tutors && CleanSettings(conf, g).embeddings == conf.embeddings
    ensures forall r :: r in conf.maxTokenRoleOverride && r in g.roles ==>
      r in CleanSettings(conf, g).maxTokenRoleOverride && CleanSettings(conf, g).maxTokenRoleOverride[r] == conf.maxTokenRoleOverride[r]
    ensures forall r :: r in conf.modelRoleOverrides && r in g.roles ==>
      r in CleanSettings(conf, g).modelRoleOverrides && CleanSettings(conf, g).modelRoleOverrides[r] == conf.modelRoleOverrides[r]
    ensures forall r :: r in conf.maxRetentionRoleOverride && r in g.roles ==>
      r in CleanSettings(conf, g).maxRetentionRoleOverride && CleanSettings(conf, g).maxRetentionRoleOverride[r] == conf.maxRetentionRoleOverride[r]
    ensures forall r :: r in conf.maxTimeRoleOverride && r in g.roles ==>
      r in CleanSettings(conf, g).maxTimeRoleOverride && CleanSettings(conf, g).maxTimeRoleOverride[r] == conf.maxTimeRoleOverride[r]
    ensures CleanSettings(conf, g) == conf <==> Clean(conf, g)
  {
    Maps.RestrictUnchanged(conf.maxTokenRoleOverride, g.roles);
    Maps.RestrictUnchanged(conf.maxRetentionRoleOverride, g.roles);
    Maps.RestrictUnchanged(conf.modelRoleOverrides, g.roles);
    Maps.RestrictUnchanged(conf.maxTimeRoleOverride, g.roles);
    KeepResolvableUnchangedIff(conf.blacklist, g);
    KeepResolvableSound(conf.blacklist, g);
  }

  /** The settings part of the cleanup: configs of vanished guilds go, the rest are cleaned. */
  function CleanConfigs(configs: map<int, GuildSettings>, guilds: Guilds): (r: map<int, GuildSettings>)
    ensures r.Keys == configs.Keys * guilds.Keys
  {
    map gid | gid in configs && gid in guilds :: CleanSettings(configs[gid], guilds[gid])
  }

  /** No config remains for a vanished guild, and every remaining config is clean. */
  lemma CleanConfigsClean(configs: map<int, GuildSettings>, guilds: Guilds)
    ensures forall gid :: gid in CleanConfigs(configs, guilds) ==> gid in guilds && Clean(CleanConfigs(configs, guilds)[gid], guilds[gid])
  {
    forall gid | gid in configs && gid in guilds
      ensures Clean(CleanSettings(configs[gid], guilds[gid]), guilds[gid])
    {
      CleanSettingsKeeps(configs[gid], guilds[gid]);
    }
  }

  /** A second cleanup pass over the same guilds changes nothing. */
  lemma CleanConfigsIdempotent(configs: map<int, GuildSettings>, guilds: Guilds)
    ensures CleanConfigs(CleanConfigs(configs, guilds), guilds) == CleanConfigs(configs, guilds)
  {
    var once := CleanConfigs(configs, guilds);
    CleanConfigsClean(configs, guilds);
    forall gid | gid in once
      ensures CleanSettings(once[gid], guilds[gid]) == once[gid]
    {
      CleanSettingsKeeps(once[gid], guilds[gid]);
    }
  }

  /** The cleanup leaves the configs as they are exactly when each belongs to a live guild and is clean. */
  lemma CleanConfigsUnchangedIff(configs: map<int, GuildSettings>, guilds: Guilds)
    ensures CleanConfigs(configs, guilds) == configs <==>
      forall gid :: gid in configs ==> gid in guilds && Clean(configs[gid], guilds[gid])
  {
    CleanConfigsFixedIff(configs, guilds);
    forall gid | gid in configs && gid in guilds
      ensures CleanSettings(configs[gid], guilds[gid]) == configs[gid] <==> Clean(configs[gid], guilds[gid])
    {
      CleanSettingsKeeps(configs[gid], guilds[gid]);
    }
  }

  /** The cleanup leaves the configs as they are exactly when no guild is gone and no config changes. */
  lemma CleanConfigsFixedIff(configs: map<int, GuildSettings>, guilds: Guilds)
    ensures CleanConfigs(configs, guilds) == configs <==>
      forall gid :: gid in configs ==> gid in guilds && CleanSettings(configs[gid], guilds[gid]) == configs[gid]
  {
    var r := CleanConfigs(configs, guilds);
    if forall gid :: gid in configs ==> gid in guilds && CleanSettings(configs[gid], guilds[gid]) == configs[gid] {
      assert r.Keys == configs.Keys;
    }
  }

  /** The per-guild loops of `_cleanup_db`: four override maps, then the blacklist. */
  method CleanupGuildSettings(conf: GuildSettings, g: Guild) returns (r: GuildSettings, changed: bool)
    ensures r == CleanSettings(conf, g)
    ensures changed <==> r != conf
  {
    var tokens, c1 := Maps.PruneKeys(conf.maxTokenRoleOverride, g.roles);
    var retention, c2 := Maps.PruneKeys(conf.maxRetentionRoleOverride, g.roles);
    var models, c3 := Maps.PruneKeys(conf.modelRoleOverrides, g.roles);
    var times, c4 := Maps.PruneKeys(conf.maxTimeRoleOverride, g.roles);
    var blacklist, c5 := PruneBlacklist(conf.blacklist, g);
    r := conf.(
      maxTokenRoleOverride := tokens,
      maxRetentionRoleOverride := retention,
      modelRoleOverrides := models,
      maxTimeRoleOverride := times,
      blacklist := blacklist);
    changed := c1 || c2 || c3 || c4 || c5;
  }

  /** The cleanup removes or rewrites the config of `gid`. */
  predicate Touched(configs: map<int, GuildSettings>, guilds: Guilds, gid: int)
    requires gid in configs
  {
    gid !in guilds || CleanSettings(configs[gid], guilds[gid]) != configs[gid]
  }

  /** The configs once the guilds outside `todo` have been visited. */
  function PartlyCleaned(configs: map<int, GuildSettings>, guilds: Guilds, todo: set<int>): map<int, GuildSettings>
  {
    map gid | gid in configs && (gid in todo || gid in guilds) ::
      if gid in todo then configs[gid] else CleanSettings(configs[gid], guilds[gid])
  }

  /**
   * The guild loop of `_cleanup_db` over a copy of the config keys: a
   * config whose guild is gone is deleted, every other one is cleaned.
   */
  method CleanupConfigs(configs: map<int, GuildSettings>, guilds: Guilds) returns (r: map<int, GuildSettings>, cleaned: bool)
    ensures r == CleanConfigs(configs, guilds)
    ensures cleaned <==> r != configs
  {
    r, cleaned := configs, false;
    var todo := configs.Keys;
    assert r == PartlyCleaned(configs, guilds, todo);
    while todo != {}
      invariant todo <= configs.Keys
      invariant r == PartlyCleaned(configs, guilds, todo)
      invariant cleaned <==> exists gid :: gid in configs && gid !in todo && Touched(configs, guilds, gid)
      decreases todo
    {
      var gid := Maps.Pick(todo);
      if gid !in guilds {
        r := r - {gid};
        cleaned := true;
      } else {
        var conf, changed := CleanupGuildSettings(configs[gid], guilds[gid]);
        r := r[gid := conf];
        cleaned := cleaned || changed;
      }
      todo := todo - {gid};
      assert r == PartlyCleaned(configs, guilds, todo);
    }
    assert r == CleanConfigs(configs, guilds);
    CleanConfigsFixedIff(configs, guilds);
  }

  /** A member as the tutor check sees it. */
  datatype Member = Member(id: int, displayName: string, roles: seq<int>)

  /** `any(role.id in tutors for role in roles)`. */
  function AnyRoleIsTutor(roles: seq<int>, tutors: seq<int>): (r: bool)
    ensures r <==> exists i :: 0 <= i < |roles| && roles[i] in tutors
    decreases |roles|
  {
    if roles == [] then false
    else roles[0] in tutors || AnyRoleIsTutor(roles[1..], tutors)
  }

  /** A member may store memories when one of their roles, or their own id, is a tutor. */
  predicate IsTutor(conf: GuildSettings, user: Member)
  {
    AnyRoleIsTutor(user.roles, conf.tutors) || user.id in conf.tutors
  }
}
