/**
 * The third-party function registry of the assistant cog: a dictionary
 * from cog name to a bucket mapping function name to its JSON schema.
 * This module holds the registry's values and the effect of each
 * registry operation as a function of the old registry; the cog class in
 * assistant.dfy performs them in place.
 */
module Registry {
  import opened Json
  import opened Wrappers
  import Maps

  /** cog name -> function name -> schema */
  type Registry = map<string, map<string, Schema>>

  /**
   * The bot's view of its loaded cogs: `get_cog(name)` is truthy exactly
   * for the keys, and `hasattr(cog, f)` holds for the names in its set.
   */
  type Cogs = map<string, set<string>>

  /**
   * The schema validator `json_schema_invalid`: the text listing what a
   * schema is missing, empty when nothing is. Its code is not part of this
   * model; the registry relies only on `ChecksName`.
   */
  type SchemaCheck = Schema -> string

  /** The validator reports every non-empty schema lacking a string `name`. */
  ghost predicate ChecksName(check: SchemaCheck)
  {
    forall s: Schema :: s != map[] && check(s) == "" ==> HasString(s, "name")
  }

  /** Why `register_function` refused a schema (the reasons it logs). */
  datatype Rejection = CogNotLoaded | EmptySchema | InvalidSchema(missing: string) | NameTaken | NoSuchAttribute

  /** Some cog other than `cogName` already registered `name`. */
  predicate OwnedElsewhere(reg: Registry, cogName: string, name: string)
  {
    exists c :: c in reg && c != cogName && name in reg[c]
  }

  /** Function names are unique across cogs */
  predicate UniqueNames(reg: Registry)
  {
    forall c1, c2, f :: c1 in reg && c2 in reg && c1 != c2 && f in reg[c1] ==> f !in reg[c2]
  }

  /** Every schema is filed under its own `name`. */
  predicate Keyed(reg: Registry)
  {
    forall c, f :: c in reg && f in reg[c] ==> HasString(reg[c][f], "name") && reg[c][f]["name"].s == f
  }

  /** The invariant every registry operation keeps. */
  predicate Valid(reg: Registry)
  {
    UniqueNames(reg) && Keyed(reg)
  }

  /**
   * The checks of `register_function`, in the order the source runs them:
   * loaded cog, non-empty schema, validator, name owned by another cog,
   * attribute present on the cog. None means the schema is accepted.
   */
  function Verdict(reg: Registry, cogs: Cogs, check: SchemaCheck, cogName: string, schema: Schema): (v: Option<Rejection>)
    requires ChecksName(check)
    ensures v.None? ==> HasString(schema, "name")
  {
    if cogName !in cogs then Some(CogNotLoaded)
    else if schema == map[] then Some(EmptySchema)
    else if check(schema) != "" then Some(InvalidSchema(check(schema)))
    else if OwnedElsewhere(reg, cogName, schema["name"].s) then Some(NameTaken)
    else if schema["name"].s !in cogs[cogName] then Some(NoSuchAttribute)
    else None
  }

  /** The bucket of `cogName`, empty when the cog has none yet. */
  function Bucket(reg: Registry, cogName: string): map<string, Schema>
  {
    if cogName in reg then reg[cogName] else map[]
  }

  /**
   * The registry after `register_function(cogName, schema)`: unchanged on
   * a rejection; otherwise the schema is filed under its name in the cog's
   * bucket (created when absent) and nothing else changes.
   */
  function Registered(reg: Registry, cogs: Cogs, check: SchemaCheck, cogName: string, schema: Schema): (r: Registry)
    requires ChecksName(check)
    ensures Verdict(reg, cogs, check, cogName, schema).Some? ==> r == reg
    ensures Verdict(reg, cogs, check, cogName, schema).None? ==>
      && r.Keys == reg.Keys + {cogName}
      && r[cogName].Keys == Bucket(reg, cogName).Keys + {schema["name"].s}
      && r[cogName][schema["name"].s] == schema
      && (forall f :: f in Bucket(reg, cogName) && f != schema["name"].s ==> r[cogName][f] == reg[cogName][f])
      && (forall c :: c in reg && c != cogName ==> r[c] == reg[c])
  {
    if Verdict(reg, cogs, check, cogName, schema).Some? then reg
    else reg[cogName := Bucket(reg, cogName)[schema["name"].s := schema]]
  }

  /** `register_function` succeeds exactly when all five checks pass. */
  lemma VerdictAcceptsIff(reg: Registry, cogs: Cogs, check: SchemaCheck, cogName: string, schema: Schema)
    requires ChecksName(check)
    ensures Verdict(reg, cogs, check, cogName, schema).None? <==>
      && cogName in cogs
      && schema != map[]
      && check(schema) == ""
      && HasString(schema, "name")
      && !OwnedElsewhere(reg, cogName, schema["name"].s)
      && schema["name"].s in cogs[cogName]
  {
  }

  /** Registering keeps names unique and every schema filed under its name. */
  lemma RegisteredValid(reg: Registry, cogs: Cogs, check: SchemaCheck, cogName: string, schema: Schema)
    requires ChecksName(check) && Valid(reg)
    ensures Valid(Registered(reg, cogs, check, cogName, schema))
  {
    if Verdict(reg, cogs, check, cogName, schema).None? {
      FiledValid(reg, cogName, schema);
    }
  }

  /** Filing a schema under its own, unowned name keeps the registry valid. */
  lemma FiledValid(reg: Registry, cogName: string, schema: Schema)
    requires Valid(reg) && HasString(schema, "name") && !OwnedElsewhere(reg, cogName, schema["name"].s)
    ensures Valid(reg[cogName := Bucket(reg, cogName)[schema["name"].s := schema]])
  {
  }

  /**
   * After a successful registration a lookup of the name finds this cog
   * and this schema, and no other cog holds the name.
   */
  lemma RegisteredLookup(reg: Registry, cogs: Cogs, check: SchemaCheck, cogName: string, schema: Schema)
    requires ChecksName(check) && Valid(reg)
    requires Verdict(reg, cogs, check, cogName, schema).None?
    ensures var r := Registered(reg, cogs, check, cogName, schema);
      && cogName in r && schema["name"].s in r[cogName] && r[cogName][schema["name"].s] == schema
      && forall c :: c in r && schema["name"].s in r[c] ==> c == cogName
  {
  }

  /**
   * Once one cog owns a name, a second, different cog registering a schema
   * of that name is refused and the first registration stays intact.
   */
  lemma SecondOwnerRejected(reg: Registry, cogs: Cogs, check: SchemaCheck, first: string, other: string, s1: Schema, s2: Schema)
    requires ChecksName(check) && Valid(reg)
    requires first != other
    requires Verdict(reg, cogs, check, first, s1).None?
    requires HasString(s2, "name") && s2["name"].s == s1["name"].s
    ensures var r := Registered(reg, cogs, check, first, s1);
      && Verdict(r, cogs, check, other, s2).Some?
      && Registered(r, cogs, check, other, s2) == r
      && r[first][s1["name"].s] == s1
  {
    var r := Registered(reg, cogs, check, first, s1);
    var v := Verdict(r, cogs, check, other, s2);
    if other in cogs && s2 != map[] && check(s2) == "" {
      assert first in r && first != other && s1["name"].s in r[first];
      assert OwnedElsewhere(r, other, s2["name"].s);
    }
  }

  /** The same cog registering a name again replaces its own entry. */
  lemma SameCogOverwrites(reg: Registry, cogs: Cogs, check: SchemaCheck, cogName: string, s1: Schema, s2: Schema)
    requires ChecksName(check) && Valid(reg)
    requires Verdict(reg, cogs, check, cogName, s1).None?
    requires HasString(s2, "name") && s2["name"].s == s1["name"].s && check(s2) == ""
    ensures var r := Registered(reg, cogs, check, cogName, s1);
      && Verdict(r, cogs, check, cogName, s2).None?
      && Registered(r, cogs, check, cogName, s2)[cogName][s1["name"].s] == s2
  {
  }

  /** The registry after `register_functions(cogName, schemas)`, one schema at a time. */
  function RegisteredAll(reg: Registry, cogs: Cogs, check: SchemaCheck, cogName: string, schemas: seq<Schema>): Registry
    requires ChecksName(check)
    decreases |schemas|
  {
    if schemas == [] then reg
    else Registered(RegisteredAll(reg, cogs, check, cogName, schemas[..|schemas| - 1]), cogs, check, cogName, schemas[|schemas| - 1])
  }

  /**
   * Registering a list keeps the registry valid and touches no bucket but
   * the registering cog's.
   */
  lemma {:induction false} RegisteredAllValid(reg: Registry, cogs: Cogs, check: SchemaCheck, cogName: string, schemas: seq<Schema>)
    requires ChecksName(check) && Valid(reg)
    ensures Valid(RegisteredAll(reg, cogs, check, cogName, schemas))
    ensures forall c :: c != cogName ==>
      (c in RegisteredAll(reg, cogs, check, cogName, schemas) <==> c in reg) &&
      (c in reg ==> RegisteredAll(reg, cogs, check, cogName, schemas)[c] == reg[c])
    decreases |schemas|
  {
    if schemas != [] {
      var init := schemas[..|schemas| - 1];
      RegisteredAllValid(reg, cogs, check, cogName, init);
      RegisteredValid(RegisteredAll(reg, cogs, check, cogName, init), cogs, check, cogName, schemas[|schemas| - 1]);
    }
  }

  /**
   * The registry after `unregister_function(cogName, name)`: exactly that
   * entry is gone; an absent cog or name leaves everything as it was.
   */
  function Unregistered(reg: Registry, cogName: string, name: string): (r: Registry)
    ensures r.Keys == reg.Keys
    ensures forall c :: c in reg && c != cogName ==> r[c] == reg[c]
    ensures cogName in reg ==> r[cogName] == Maps.Restrict(reg[cogName], reg[cogName].Keys - {name})
    ensures (cogName !in reg || name !in reg[cogName]) ==> r == reg
  {
    if cogName !in reg then reg
    else if name !in reg[cogName] then reg
    else reg[cogName := reg[cogName] - {name}]
  }

  /** The registry after `unregister_cog(cogName)`: exactly that bucket is gone. */
  function UnregisteredCog(reg: Registry, cogName: string): (r: Registry)
    ensures r.Keys == reg.Keys - {cogName}
    ensures forall c :: c in r ==> r[c] == reg[c]
    ensures cogName !in reg ==> r == reg
  {
    if cogName !in reg then reg else reg - {cogName}
  }

  /** Both removals keep the registry valid, and repeating either changes nothing. */
  lemma UnregisterValidIdempotent(reg: Registry, cogName: string, name: string)
    requires Valid(reg)
    ensures Valid(Unregistered(reg, cogName, name)) && Valid(UnregisteredCog(reg, cogName))
    ensures Unregistered(Unregistered(reg, cogName, name), cogName, name) == Unregistered(reg, cogName, name)
    ensures UnregisteredCog(UnregisteredCog(reg, cogName), cogName) == UnregisteredCog(reg, cogName)
  {
  }

  /**
   * The registry part of the startup cleanup: buckets of cogs that are no
   * longer loaded are dropped, and a loaded cog keeps only the functions it
   * still has as attributes. Every kept entry is unchanged.
   */
  function Reconciled(reg: Registry, cogs: Cogs): (r: Registry)
    ensures r.Keys == reg.Keys * cogs.Keys
    ensures forall c :: c in r ==> r[c].Keys <= cogs[c]
    ensures forall c, f :: c in reg && c in cogs && f in reg[c] && f in cogs[c] ==>
      c in r && f in r[c] && r[c][f] == reg[c][f]
    ensures forall c, f :: c in r && f in r[c] ==> c in reg && f in reg[c] && r[c][f] == reg[c][f]
  {
    map c | c in reg && c in cogs :: Maps.Restrict(reg[c], cogs[c])
  }

  /** Reconciling keeps the registry valid, and a second pass changes nothing. */
  lemma ReconciledValidIdempotent(reg: Registry, cogs: Cogs)
    requires Valid(reg)
    ensures Valid(Reconciled(reg, cogs))
    ensures Reconciled(Reconciled(reg, cogs), cogs) == Reconciled(reg, cogs)
  {
    var r := Reconciled(reg, cogs);
    forall c | c in r
      ensures Maps.Restrict(r[c], cogs[c]) == r[c]
    {
      Maps.RestrictUnchanged(r[c], cogs[c]);
    }
  }

  /** The bucket of `c` names a cog that is not loaded or a function it lacks. */
  predicate Stale(reg: Registry, cogs: Cogs, c: string)
    requires c in reg
  {
    c !in cogs || !(reg[c].Keys <= cogs[c])
  }

  /** Reconciling removes something exactly when the registry names a missing cog or attribute. */
  lemma ReconciledUnchangedIff(reg: Registry, cogs: Cogs)
    ensures Reconciled(reg, cogs) == reg <==> forall c :: c in reg ==> !Stale(reg, cogs, c)
  {
    var r := Reconciled(reg, cogs);
    if forall c :: c in reg ==> !Stale(reg, cogs, c) {
      forall c | c in reg
        ensures r[c] == reg[c]
      {
        Maps.RestrictUnchanged(reg[c], cogs[c]);
      }
      assert r.Keys == reg.Keys;
    }
  }

  /**
   * The search loop of `register_function` over the other buckets: it
   * finds a cog other than `cogName` owning `name`, or reports none does.
   */
  method FindOtherOwner(reg: Registry, cogName: string, name: string) returns (owner: Option<string>)
    ensures owner.Some? ==> owner.value in reg && owner.value != cogName && name in reg[owner.value]
    ensures owner.None? ==> !OwnedElsewhere(reg, cogName, name)
  {
    var todo := reg.Keys;
    while todo != {}
      invariant todo <= reg.Keys
      invariant forall c :: c in reg && c !in todo && c != cogName ==> name !in reg[c]
      decreases todo
    {
      var c := Maps.Pick(todo);
      if c != cogName && name in reg[c] {
        return Some(c);
      }
      todo := todo - {c};
    }
    return None;
  }

  /** The registry while the cleanup loop has the cogs in `todo` still to visit. */
  function PartlyReconciled(reg: Registry, cogs: Cogs, todo: set<string>): Registry
  {
    map c | c in reg && (c in todo || c in cogs) :: if c in todo then reg[c] else Maps.Restrict(reg[c], cogs[c])
  }

  lemma ReconciledDone(reg: Registry, cogs: Cogs)
    ensures PartlyReconciled(reg, cogs, {}) == Reconciled(reg, cogs)
  {
  }

  /**
   * The registry loop of `_cleanup_db`: drop the bucket of every cog that
   * is not loaded, and prune the functions a loaded cog no longer has.
   * `cleaned` is set exactly when something was removed.
   */
  method ReconcileRegistry(reg: Registry, cogs: Cogs) returns (r: Registry, cleaned: bool)
    ensures r == Reconciled(reg, cogs)
    ensures cleaned <==> r != reg
  {
    r, cleaned := reg, false;
    var todo := reg.Keys;
    while todo != {}
      invariant todo <= reg.Keys
      invariant r == PartlyReconciled(reg, cogs, todo)
      invariant cleaned <==> exists c :: c in reg && c !in todo && Stale(reg, cogs, c)
      decreases todo
    {
      var c := Maps.Pick(todo);
      if c !in cogs {
        r := r - {c};
        cleaned := true;
      } else {
        var bucket, changed := Maps.PruneKeys(reg[c], cogs[c]);
        Maps.RestrictUnchanged(reg[c], cogs[c]);
        r := r[c := bucket];
        cleaned := cleaned || changed;
      }
      todo := todo - {c};
    }
    ReconciledDone(reg, cogs);
    ReconciledUnchangedIff(reg, cogs);
  }
}
