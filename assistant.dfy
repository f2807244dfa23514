/**
 * The assistant cog's in-memory bookkeeping: the function registry, the
 * startup cleanup pass, the single-flight save of the database, the
 * memory (embedding) store guards and the credential guard of `get_chat`.
 * Calls into the bot, the config backend and the model vendor are
 * parameters: the loaded cogs, the guilds, the schema validator, the
 * embedding returned by the vendor, the outcome of the write.
 */
module Assistant {
  import opened Wrappers
  import opened Json
  import Registry
  import opened Settings

  /** `NoAPIKey`: the guild has no usable model credentials. */
  datatype ChatError = NoAPIKey

  /** `EmbeddingEntryExists`: the name is taken and overwriting was not asked for. */
  datatype EmbeddingError = EmbeddingEntryExists(name: string)

  /** The outcomes of `knowledge_store`, the tool the model calls to create a memory. */
  datatype StoreReply = NameTooLong | NotTutor(displayName: string) | EmbeddingFailed | Created(name: string) | AlreadyExists(name: string)

  /** Memory names longer than this are refused. */
  const MaxEmbeddingName: nat := 45

  /** The text `knowledge_store` returns to the model for each outcome. */
  function ReplyText(r: StoreReply): string
  {
    match r
    case NameTooLong => "Error: embedding_name should be 45 characters or less!"
    case NotTutor(who) => "User " + who + " is not recognized as a tutor!"
    case EmbeddingFailed => "Failed to create embedding!"
    case Created(name) => "The " + name + " embedding entry has been created, you can now reference it later"
    case AlreadyExists(name) => "An embedding entry with the name " + name + " already exists!"
  }

  /** The database as `save_conf` dumps it: conversations are dropped unless they persist. */
  function SaveView(db: DB): (r: DB)
    ensures r.configs == db.configs && r.persistentConversations == db.persistentConversations
    ensures r.conversations == if db.persistentConversations then db.conversations else map[]
  {
    if db.persistentConversations then db else db.(conversations := map[])
  }

  class AssistantCog {
    /** {cog_name: {function_name: function_json_schema}} */
    var registry: Registry.Registry
    var db: DB
    /** True while a save is in flight. */
    var saving: bool
    /** True until the first save has been written. */
    var firstRun: bool
    /** Whether the two-minute save loop is running. */
    var saveLoopRunning: bool
    /**
     * The dump of the save in flight: the `dump` local of `save_conf`
     * while it awaits the write. Kept here so that the two halves of
     * `save_conf` around that await can be modelled as two steps.
     */
    var inFlight: Option<DB>
    /** The last dump the config backend accepted. */
    var stored: Option<DB>
    /** Saves scheduled fire-and-forget by mutations, `asyncio.create_task(self.save_conf())`. */
    var scheduledSaves: nat

    /** The registry invariant, and a dump exists exactly while a save is in flight. */
    ghost predicate Valid()
      reads this
    {
      Registry.Valid(registry) && (saving <==> inFlight.Some?)
    }

    /** `__init__`: an empty registry and an empty database, nothing saved yet. */
    constructor ()
      ensures Valid()
      ensures registry == map[] && db == DB(map[], map[], false)
      ensures !saving && firstRun && !saveLoopRunning && stored == None && scheduledSaves == 0
    {
      registry := map[];
      db := DB(map[], map[], false);
      saving := false;
      firstRun := true;
      saveLoopRunning := false;
      inFlight := None;
      stored := None;
      scheduledSaves := 0;
    }

    /**
     * `register_function`: file `schema` under its name in the bucket of
     * `cogName`, unless one of the checks refuses it.
     */
    method RegisterFunction(cogName: string, schema: Schema, cogs: Registry.Cogs, check: Registry.SchemaCheck) returns (ok: bool)
      requires Valid() && Registry.ChecksName(check)
      modifies this`registry
      ensures Valid()
      ensures ok <==> Registry.Verdict(old(registry), cogs, check, cogName, schema).None?
      ensures registry == Registry.Registered(old(registry), cogs, check, cogName, schema)
    {
      Registry.RegisteredValid(registry, cogs, check, cogName, schema);
      if cogName !in cogs || schema == map[] {
        return false;
      }
      var missing := check(schema);
      if missing != "" {
        return false;
      }
      var name := schema["name"].s;
      var owner := Registry.FindOtherOwner(registry, cogName, name);
      if owner.Some? || name !in cogs[cogName] {
        return false;
      }
      var bucket := if cogName in registry then registry[cogName] else map[];
      registry := registry[cogName := bucket[name := schema]];
      return true;
    }

    /** `register_functions`: register each schema in turn; refusals are skipped. */
    method RegisterFunctions(cogName: string, schemas: seq<Schema>, cogs: Registry.Cogs, check: Registry.SchemaCheck)
      requires Valid() && Registry.ChecksName(check)
      modifies this`registry
      ensures Valid()
      ensures registry == Registry.RegisteredAll(old(registry), cogs, check, cogName, schemas)
    {
      var i := 0;
      while i < |schemas|
        invariant 0 <= i <= |schemas|
        invariant Valid()
        invariant registry == Registry.RegisteredAll(old(registry), cogs, check, cogName, schemas[..i])
      {
        assert schemas[..i + 1][..i] == schemas[..i];
        var _ := RegisterFunction(cogName, schemas[i], cogs, check);
        i := i + 1;
      }
      assert schemas[..i] == schemas;
    }

    /** `unregister_function`: remove one function of one cog, if present. */
    method UnregisterFunction(cogName: string, name: string)
      requires Valid()
      modifies this`registry
      ensures Valid()
      ensures registry == Registry.Unregistered(old(registry), cogName, name)
    {
      Registry.UnregisterValidIdempotent(registry, cogName, name);
      if cogName !in registry {
        return;
      }
      if name !in registry[cogName] {
        return;
      }
      registry := registry[cogName := registry[cogName] - {name}];
    }

    /** `unregister_cog`, also run when a cog is unloaded: drop the cog's bucket, if present. */
    method UnregisterCog(cogName: string)
      requires Valid()
      modifies this`registry
      ensures Valid()
      ensures registry == Registry.UnregisteredCog(old(registry), cogName)
    {
      Registry.UnregisterValidIdempotent(registry, cogName, "");
      if cogName !in registry {
        return;
      }
      registry := registry - {cogName};
    }

    /**
     * `_cleanup_db`: reconcile the registry with the loaded cogs, then drop
     * the configs of vanished guilds and the stale role overrides and
     * blacklist ids of the rest. `cleaned` decides the logged health.
     */
    method CleanupDb(cogs: Registry.Cogs, guilds: Guilds) returns (cleaned: bool)
      requires Valid()
      modifies this`registry, this`db
      ensures Valid()
      ensures registry == Registry.Reconciled(old(registry), cogs)
      ensures db == old(db).(configs := CleanConfigs(old(db).configs, guilds))
      ensures cleaned <==> registry != old(registry) || db != old(db)
    {
      Registry.ReconciledValidIdempotent(registry, cogs);
      var reg, regCleaned := Registry.ReconcileRegistry(registry, cogs);
      registry := reg;
      var configs, confCleaned := CleanupConfigs(db.configs, guilds);
      db := db.(configs := configs);
      cleaned := regCleaned || confCleaned;
    }

    /**
     * The first half of `save_conf`, up to the awaited write: a no-op when a
     * save is already in flight; otherwise raise `saving`, clear the
     * conversations when they do not persist, and take the dump.
     */
    method BeginSave() returns (started: bool)
      requires Valid()
      modifies this`saving, this`db, this`inFlight
      ensures Valid()
      ensures started <==> !old(saving)
      ensures !started ==> db == old(db) && inFlight == old(inFlight)
      ensures started ==> saving && db == SaveView(old(db)) && inFlight == Some(db)
    {
      if saving {
        return false;
      }
      saving := true;
      if !db.persistentConversations {
        db := db.(conversations := map[]);
      }
      inFlight := Some(db);
      return true;
    }

    /**
     * The second half of `save_conf`: the write either stores the dump or
     * fails (the failure is logged and swallowed); `saving` is lowered in
     * every case, and the save loop is cancelled when conversations do not
     * persist.
     */
    method FinishSave(writeFails: bool)
      requires Valid() && saving
      modifies this`saving, this`inFlight, this`stored, this`firstRun, this`saveLoopRunning
      ensures Valid() && !saving
      ensures stored == if writeFails then old(stored) else old(inFlight)
      ensures firstRun == (old(firstRun) && writeFails)
      ensures saveLoopRunning == (old(saveLoopRunning) && db.persistentConversations)
    {
      if !writeFails {
        stored := inFlight;
        if firstRun {
          firstRun := false;
        }
      }
      saving := false;
      inFlight := None;
      if !db.persistentConversations && saveLoopRunning {
        saveLoopRunning := false;
      }
    }

    /** `save_conf` run without another task stepping in during its write. */
    method SaveConf(writeFails: bool)
      requires Valid()
      modifies this`saving, this`db, this`inFlight, this`stored, this`firstRun, this`saveLoopRunning
      ensures Valid()
      ensures old(saving) ==> db == old(db) && inFlight == old(inFlight) && stored == old(stored) && firstRun == old(firstRun) && saveLoopRunning == old(saveLoopRunning) && saving
      ensures !old(saving) ==> !saving && db == SaveView(old(db))
      ensures !old(saving) ==> stored == (if writeFails then old(stored) else Some(SaveView(old(db))))
      ensures !old(saving) ==> firstRun == (old(firstRun) && writeFails)
      ensures !old(saving) ==> saveLoopRunning == (old(saveLoopRunning) && old(db).persistentConversations)
    {
      var started := BeginSave();
      if started {
        FinishSave(writeFails);
      }
    }

    /** One tick of `save_loop`: save only when conversations persist. */
    method SaveLoopTick(writeFails: bool)
      requires Valid()
      modifies this`saving, this`db, this`inFlight, this`stored, this`firstRun, this`saveLoopRunning
      ensures Valid()
      ensures !old(db).persistentConversations ==>
        && db == old(db) && stored == old(stored) && saveLoopRunning == old(saveLoopRunning)
        && firstRun == old(firstRun) && saving == old(saving) && inFlight == old(inFlight)
      ensures old(db).persistentConversations && old(saving) ==>
        && db == old(db) && stored == old(stored) && saving && inFlight == old(inFlight)
        && firstRun == old(firstRun) && saveLoopRunning == old(saveLoopRunning)
      ensures old(db).persistentConversations && !old(saving) ==>
        && db == old(db) && !saving && stored == (if writeFails then old(stored) else Some(old(db)))
        && firstRun == (old(firstRun) && writeFails) && saveLoopRunning == old(saveLoopRunning)
    {
      if !db.persistentConversations {
        return;
      }
      SaveConf(writeFails);
    }

    /**
     * `add_embedding`: store a memory under `name` in the guild's settings.
     * `vector` is what the embedding vendor returned, empty for none.
     */
    method AddEmbedding(gid: int, name: string, text: string, overwrite: bool, aiCreated: bool, vector: seq<real>)
      returns (r: Result<Option<seq<real>>, EmbeddingError>)
      requires Valid()
      modifies this`db, this`scheduledSaves
      ensures Valid()
      ensures var conf := GetConf(old(db), gid);
        if name in conf.embeddings && !overwrite then
          r == Failure(EmbeddingEntryExists(name)) && db == WithConf(old(db), gid) && scheduledSaves == old(scheduledSaves)
        else if vector == [] then
          r == Success(None) && db == WithConf(old(db), gid) && scheduledSaves == old(scheduledSaves)
        else
          && r == Success(Some(vector))
          && db == WithConf(old(db), gid).(configs := old(db).configs[gid := conf.(embeddings := conf.embeddings[name := Embedding(text, vector, aiCreated)])])
          && scheduledSaves == old(scheduledSaves) + 1
    {
      db := WithConf(db, gid);
      var conf := db.configs[gid];
      if name in conf.embeddings && !overwrite {
        return Failure(EmbeddingEntryExists(name));
      }
      if vector == [] {
        return Success(None);
      }
      conf := conf.(embeddings := conf.embeddings[name := Embedding(text, vector, aiCreated)]);
      db := db.(configs := db.configs[gid := conf]);
      scheduledSaves := scheduledSaves + 1;
      return Success(Some(vector));
    }

    /**
     * `knowledge_store`, the model's tool for creating a memory: refuse a
     * long name before touching anything, refuse a user who is not a tutor,
     * then add the memory without overwriting, flagged as created by the
     * model.
     */
    method KnowledgeStore(gid: int, user: Member, name: string, text: string, vector: seq<real>)
      returns (reply: StoreReply, message: string)
      requires Valid()
      modifies this`db, this`scheduledSaves
      ensures Valid()
      ensures message == ReplyText(reply)
      ensures |name| > MaxEmbeddingName ==> reply == NameTooLong && db == old(db) && scheduledSaves == old(scheduledSaves)
      ensures |name| <= MaxEmbeddingName && !IsTutor(GetConf(old(db), gid), user) ==>
        reply == NotTutor(user.displayName) && db == WithConf(old(db), gid) && scheduledSaves == old(scheduledSaves)
      ensures |name| <= MaxEmbeddingName && IsTutor(GetConf(old(db), gid), user) ==>
        var conf := GetConf(old(db), gid);
        if name in conf.embeddings then
          reply == AlreadyExists(name) && db == WithConf(old(db), gid) && scheduledSaves == old(scheduledSaves)
        else if vector == [] then
          reply == EmbeddingFailed && db == WithConf(old(db), gid) && scheduledSaves == old(scheduledSaves)
        else
          && reply == Created(name)
          && db == WithConf(old(db), gid).(configs := old(db).configs[gid := conf.(embeddings := conf.embeddings[name := Embedding(text, vector, true)])])
          && scheduledSaves == old(scheduledSaves) + 1
    {
      if |name| > MaxEmbeddingName {
        return NameTooLong, ReplyText(NameTooLong);
      }
      db := WithConf(db, gid);
      var conf := db.configs[gid];
      if !IsTutor(conf, user) {
        reply := NotTutor(user.displayName);
        return reply, ReplyText(reply);
      }
      var r := AddEmbedding(gid, name, text, false, true, vector);
      reply := match r
        case Failure(_) => AlreadyExists(name)
        case Success(None) => EmbeddingFailed
        case Success(Some(_)) => Created(name);
      message := ReplyText(reply);
    }

    /**
     * The guard of `get_chat`: `NoAPIKey` unless `canCallLlm` accepts the
     * guild's settings; `response` stands for the chat loop's answer.
     */
    method GetChat(gid: int, canCallLlm: GuildSettings -> bool, response: string) returns (r: Result<string, ChatError>)
      requires Valid()
      modifies this`db
      ensures Valid()
      ensures db == WithConf(old(db), gid)
      ensures r == if canCallLlm(GetConf(old(db), gid)) then Success(response) else Failure(NoAPIKey)
    {
      db := WithConf(db, gid);
      if !canCallLlm(db.configs[gid]) {
        return Failure(NoAPIKey);
      }
      return Success(response);
    }

    /**
     * `init_cog` after the bot is ready: load the stored database, run the
     * cleanup pass, register the cog's own memory tool, start the save loop.
     */
    method InitCog(data: DB, cogs: Registry.Cogs, guilds: Guilds, check: Registry.SchemaCheck, qualifiedName: string, tutorSchema: Schema)
      requires Valid() && Registry.ChecksName(check)
      modifies this`registry, this`db, this`saveLoopRunning
      ensures Valid() && saveLoopRunning
      ensures db == data.(configs := CleanConfigs(data.configs, guilds))
      ensures registry == Registry.Registered(Registry.Reconciled(old(registry), cogs), cogs, check, qualifiedName, tutorSchema)
    {
      db := data;
      var _ := CleanupDb(cogs, guilds);
      var _ := RegisterFunction(qualifiedName, tutorSchema, cogs, check);
      saveLoopRunning := true;
    }
  }

  /**
   * Two saves overlapping at the awaited write: the second request is a
   * no-op, exactly one dump is written, and a change made while the first
   * save was in flight is written by the next save.
   */
  method OverlappingSaves(cog: AssistantCog, key: string, later: Conversation)
    requires cog.Valid() && !cog.saving && cog.db.persistentConversations
    modifies cog
    ensures cog.Valid() && !cog.saving
    ensures cog.stored == Some(old(cog.db).(conversations := old(cog.db).conversations[key := later]))
  {
    var before := cog.db;
    var started := cog.BeginSave();
    assert started && cog.inFlight == Some(before);
    cog.SaveConf(false);
    assert cog.inFlight == Some(before);
    cog.db := cog.db.(conversations := cog.db.conversations[key := later]);
    cog.FinishSave(false);
    assert cog.stored == Some(before);
    cog.SaveConf(false);
  }
}
