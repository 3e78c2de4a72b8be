/** Settings whose secrets live elsewhere (`serverSettings.ts`). Sensitive provider environment
    variables and usage-limit source keys are split out of the settings into a secret store before
    they are written, put back on read, and blanked in the view a client gets and sends back. */
module SettingsSecrets {
  import opened Prelude

  /** `valueRedacted` says that the value is withheld: on disk it is in the store, and in a view sent
      by a client it means "keep what you have". An absent flag and a false one are the same. */
  datatype Variable = Variable(name: string, value: string, sensitive: bool, valueRedacted: bool)

  /** `rest` is whatever else the entry holds; nothing here looks at it. */
  datatype Instance = Instance(environment: Option<seq<Variable>>, rest: string)

  datatype Source = Source(managementKey: string, rest: string)

  datatype Settings = Settings(instances: map<string, Instance>, sources: map<string, Source>, rest: string)

  /** The names of stored secrets. Distinct owners have distinct names (module `SecretNames`). */
  datatype SecretName = ProviderEnv(instance: string, variable: string) | UsageLimitSource(source: string)

  /** Six bullets: on disk, and in a client's view, the place of a key that is kept in the store. */
  const KEY_REDACTED := "\U{2022}\U{2022}\U{2022}\U{2022}\U{2022}\U{2022}"

  function Lookup(secrets: map<SecretName, string>, name: SecretName): Option<string> {
    if name in secrets then Some(secrets[name]) else None
  }

  function TextOr(secret: Option<string>): string {
    if secret.Some? then secret.value else ""
  }

  function EnvironmentOf(settings: Settings, instance: string): seq<Variable> {
    if instance in settings.instances && settings.instances[instance].environment.Some?
    then settings.instances[instance].environment.value else []
  }

  /** The entry that wins when a name is given twice. */
  function FindLast(environment: seq<Variable>, name: string): Option<Variable> {
    if environment == [] then None
    else if environment[|environment| - 1].name == name then Some(environment[|environment| - 1])
    else FindLast(environment[..|environment| - 1], name)
  }

  // ----- Reading: secrets put back -----

  function MaterializedVariable(secrets: map<SecretName, string>, instance: string, variable: Variable): Variable {
    if !variable.sensitive || !variable.valueRedacted then variable
    else variable.(value := TextOr(Lookup(secrets, ProviderEnv(instance, variable.name))))
  }

  function MaterializedEnvironment(secrets: map<SecretName, string>, instance: string, environment: seq<Variable>): seq<Variable> {
    seq(|environment|, k requires 0 <= k < |environment| => MaterializedVariable(secrets, instance, environment[k]))
  }

  function MaterializedInstance(secrets: map<SecretName, string>, id: string, instance: Instance): Instance {
    if instance.environment.None? then instance
    else instance.(environment := Some(MaterializedEnvironment(secrets, id, instance.environment.value)))
  }

  function MaterializedSource(secrets: map<SecretName, string>, id: string, source: Source): Source {
    if source.managementKey != KEY_REDACTED then source
    else source.(managementKey := TextOr(Lookup(secrets, UsageLimitSource(id))))
  }

  function Materialized(settings: Settings, secrets: map<SecretName, string>): Settings {
    settings.(instances := map id | id in settings.instances :: MaterializedInstance(secrets, id, settings.instances[id]),
              sources := map id | id in settings.sources :: MaterializedSource(secrets, id, settings.sources[id]))
  }

  // ----- The client's view -----

  function RedactedVariable(variable: Variable): Variable {
    if !variable.sensitive then variable.(valueRedacted := false)
    else variable.(value := "", valueRedacted := |variable.value| > 0 || variable.valueRedacted)
  }

  function RedactedInstance(instance: Instance): Instance {
    if instance.environment.None? then instance
    else
      var environment := instance.environment.value;
      instance.(environment := Some(seq(|environment|, k requires 0 <= k < |environment| => RedactedVariable(environment[k]))))
  }

  function RedactedSource(source: Source): Source {
    source.(managementKey := if |source.managementKey| > 0 then KEY_REDACTED else "")
  }

  function Redacted(settings: Settings): Settings {
    settings.(instances := map id | id in settings.instances :: RedactedInstance(settings.instances[id]),
              sources := map id | id in settings.sources :: RedactedSource(settings.sources[id]))
  }

  // ----- Writing: what one variable does to the store, and what is left of it -----

  datatype Write = Keep | Put(value: string) | Drop

  function Applied(write: Write, stored: Option<string>): Option<string> {
    match write
    case Keep => stored
    case Put(value) => Some(value)
    case Drop => None
  }

  /** A value still readable in the current settings (a hand-edited file), for a variable sent back
      redacted. */
  function InlineValue(current: seq<Variable>, variable: Variable): Option<string> {
    if !variable.valueRedacted then None
    else
      var previous := FindLast(current, variable.name);
      if previous.Some? && previous.value.sensitive && !previous.value.valueRedacted && |previous.value.value| > 0
      then Some(previous.value.value) else None
  }

  function WriteOf(current: seq<Variable>, variable: Variable): Write {
    if !variable.sensitive then Drop
    else
      var inline := InlineValue(current, variable);
      var value := if inline.Some? then inline.value else variable.value;
      if !variable.valueRedacted || inline.Some? then (if |value| > 0 then Put(value) else Drop) else Keep
  }

  function PersistedVariable(current: seq<Variable>, variable: Variable): Variable {
    if !variable.sensitive then RedactedVariable(variable)
    else match WriteOf(current, variable)
      case Put(_) => variable.(value := "", valueRedacted := true)
      case Drop => variable.(valueRedacted := false)
      case Keep => RedactedVariable(variable)
  }

  /** The last write among the variables of that name decides. */
  function LastWrite(current: seq<Variable>, environment: seq<Variable>, name: string): Write {
    if environment == [] then Keep
    else
      var last := environment[|environment| - 1];
      if last.name == name && !WriteOf(current, last).Keep? then WriteOf(current, last)
      else LastWrite(current, environment[..|environment| - 1], name)
  }

  /** Some sensitive variable of the settings goes by that name. */
  predicate Owns(settings: Settings, instance: string, name: string) {
    exists variable <- EnvironmentOf(settings, instance) :: variable.sensitive && variable.name == name
  }

  function PersistedInstance(current: seq<Variable>, instance: Instance): Instance {
    if instance.environment.None? then instance
    else
      var environment := instance.environment.value;
      instance.(environment := Some(seq(|environment|, k requires 0 <= k < |environment| => PersistedVariable(current, environment[k]))))
  }

  function PersistedSource(source: Source): Source {
    if |source.managementKey| == 0 then source else source.(managementKey := KEY_REDACTED)
  }

  /** The settings that are written to disk. */
  function Persisted(current: Settings, next: Settings): Settings {
    next.(instances := map id | id in next.instances :: PersistedInstance(EnvironmentOf(current, id), next.instances[id]),
          sources := map id | id in next.sources :: PersistedSource(next.sources[id]))
  }

  function SourceWrite(source: Source): Write {
    if source.managementKey == KEY_REDACTED then Keep
    else if |source.managementKey| == 0 then Drop
    else Put(source.managementKey)
  }

  /** What the store holds under a name afterwards. */
  function StoredAfter(secrets: map<SecretName, string>, current: Settings, next: Settings, name: SecretName): Option<string> {
    match name
    case ProviderEnv(instance, variable) =>
      if Owns(current, instance, variable) && !Owns(next, instance, variable) then None
      else Applied(LastWrite(EnvironmentOf(current, instance), EnvironmentOf(next, instance), variable), Lookup(secrets, name))
    case UsageLimitSource(source) =>
      if source in next.sources then Applied(SourceWrite(next.sources[source]), Lookup(secrets, name))
      else if source in current.sources then None
      else Lookup(secrets, name)
  }

  ghost predicate StoreIs(secrets: map<SecretName, string>, before: map<SecretName, string>, current: Settings, next: Settings) {
    forall name: SecretName :: Lookup(secrets, name) == StoredAfter(before, current, next, name)
  }

  predicate NamesSensitive(name: SecretName, instance: string, environment: seq<Variable>) {
    && name.ProviderEnv? && name.instance == instance
    && exists variable <- environment :: variable.sensitive && variable.name == name.variable
  }

  /** What is stored under `name` once the variables of one instance have been dealt with. */
  function WrittenBy(instance: string, current: seq<Variable>, environment: seq<Variable>, name: SecretName, stored: Option<string>): Option<string> {
    if name.ProviderEnv? && name.instance == instance then Applied(LastWrite(current, environment, name.variable), stored) else stored
  }

  function WrittenByAll(current: Settings, next: Settings, name: SecretName, stored: Option<string>): Option<string> {
    if name.ProviderEnv? then WrittenBy(name.instance, EnvironmentOf(current, name.instance), EnvironmentOf(next, name.instance), name, stored)
    else stored
  }

  // ----- What holds after every update -----

  /** No sensitive value and no source key can be read from the settings. */
  ghost predicate NoPlaintext(settings: Settings) {
    && (forall id <- settings.instances, variable <- EnvironmentOf(settings, id) :: variable.sensitive ==> variable.value == "")
    && (forall id <- settings.sources :: settings.sources[id].managementKey in {"", KEY_REDACTED})
  }

  /** Every stored secret belongs to a sensitive variable or to a source of the settings. */
  ghost predicate EverySecretOwned(settings: Settings, secrets: map<SecretName, string>) {
    forall name <- secrets ::
      if name.ProviderEnv? then Owns(settings, name.instance, name.variable) else name.source in settings.sources
  }

  lemma NothingStaysReadable(current: Settings, next: Settings)
    ensures NoPlaintext(Persisted(current, next))
  {
    var settings := Persisted(current, next);
    forall id <- settings.instances, variable <- EnvironmentOf(settings, id)
      ensures variable.sensitive ==> variable.value == ""
    {
      var k :| 0 <= k < |EnvironmentOf(settings, id)| && EnvironmentOf(settings, id)[k] == variable;
      assert variable == PersistedVariable(EnvironmentOf(current, id), EnvironmentOf(next, id)[k]);
    }
  }

  /** The same settings but for what their variables and keys hold: the same instances and sources, each with
      the same variables in the same order and the same other content. */
  ghost predicate SameShape(a: Settings, b: Settings) {
    && a.rest == b.rest && a.instances.Keys == b.instances.Keys && a.sources.Keys == b.sources.Keys
    && (forall id <- a.instances :: SameInstance(a.instances[id], b.instances[id]))
    && (forall id <- a.sources :: a.sources[id].rest == b.sources[id].rest)
  }

  ghost predicate SameInstance(a: Instance, b: Instance) {
    && a.rest == b.rest && (a.environment.Some? <==> b.environment.Some?)
    && (a.environment.Some? ==>
          && |a.environment.value| == |b.environment.value|
          && forall k :: 0 <= k < |a.environment.value| ==>
               && a.environment.value[k].name == b.environment.value[k].name
               && a.environment.value[k].sensitive == b.environment.value[k].sensitive
               && (!a.environment.value[k].sensitive ==> a.environment.value[k].value == b.environment.value[k].value))
  }

  lemma InstanceKeepsItsShape(current: seq<Variable>, secrets: map<SecretName, string>, id: string, instance: Instance)
    ensures SameInstance(PersistedInstance(current, instance), instance)
    ensures SameInstance(MaterializedInstance(secrets, id, instance), instance)
    ensures SameInstance(RedactedInstance(instance), instance)
  {
  }

  /** Nothing but secrets is touched: what is written to disk, what is read back from it and what a client is
      shown all have the shape of the settings they come from, and the plain values. */
  lemma SettingsKeepTheirShape(current: Settings, next: Settings, secrets: map<SecretName, string>)
    ensures SameShape(Persisted(current, next), next)
    ensures SameShape(Materialized(next, secrets), next)
    ensures SameShape(Redacted(next), next)
  {
    forall id <- next.instances
      ensures SameInstance(Persisted(current, next).instances[id], next.instances[id])
      ensures SameInstance(Materialized(next, secrets).instances[id], next.instances[id])
      ensures SameInstance(Redacted(next).instances[id], next.instances[id])
    {
      InstanceKeepsItsShape(EnvironmentOf(current, id), secrets, id, next.instances[id]);
    }
  }

  /** A value is marked as withheld exactly if it is sensitive and there is one: on disk after an update, and
      in the view. A key's place is marked in both exactly if there is a key. */
  lemma WithheldIsMarked(current: Settings, next: Settings, instance: string, k: nat, source: string)
    requires k < |EnvironmentOf(next, instance)| && source in next.sources
    ensures var given := EnvironmentOf(next, instance)[k];
      && k < |EnvironmentOf(Persisted(current, next), instance)| == |EnvironmentOf(Redacted(next), instance)|
      && (EnvironmentOf(Persisted(current, next), instance)[k].valueRedacted <==> given.sensitive && (given.value != "" || given.valueRedacted))
      && (EnvironmentOf(Redacted(next), instance)[k].valueRedacted <==> given.sensitive && (given.value != "" || given.valueRedacted))
    ensures (Persisted(current, next).sources[source].managementKey == KEY_REDACTED) <==> next.sources[source].managementKey != ""
    ensures (Redacted(next).sources[source].managementKey == KEY_REDACTED) <==> next.sources[source].managementKey != ""
  {
    var given := EnvironmentOf(next, instance)[k];
    assert EnvironmentOf(Persisted(current, next), instance)[k] == PersistedVariable(EnvironmentOf(current, instance), given);
    assert EnvironmentOf(Redacted(next), instance)[k] == RedactedVariable(given);
  }

  lemma SameShapeAgain(a: Settings, b: Settings, c: Settings)
    requires SameShape(a, b) && SameShape(b, c)
    ensures SameShape(a, c)
  {
    forall id <- a.instances
      ensures SameInstance(a.instances[id], c.instances[id])
    {
      assert SameInstance(a.instances[id], b.instances[id]) && SameInstance(b.instances[id], c.instances[id]);
    }
  }

  /** A write that stores something belongs to a sensitive variable of that name. */
  lemma {:induction false} PutHasAnOwner(current: seq<Variable>, environment: seq<Variable>, name: string)
    requires LastWrite(current, environment, name).Put?
    ensures exists variable <- environment :: variable.sensitive && variable.name == name
  {
    var last := environment[|environment| - 1];
    assert last in environment;
    if !(last.name == name && !WriteOf(current, last).Keep?) {
      PutHasAnOwner(current, environment[..|environment| - 1], name);
    }
  }

  lemma PersistedOwns(current: Settings, next: Settings, instance: string, name: string)
    requires Owns(next, instance, name)
    ensures Owns(Persisted(current, next), instance, name)
  {
    var environment := EnvironmentOf(next, instance);
    var variable :| variable in environment && variable.sensitive && variable.name == name;
    var k :| 0 <= k < |environment| && environment[k] == variable;
    var kept := PersistedVariable(EnvironmentOf(current, instance), variable);
    assert EnvironmentOf(Persisted(current, next), instance)[k] == kept;
    assert kept in EnvironmentOf(Persisted(current, next), instance);
  }

  lemma EverySecretKeepsAnOwner(before: map<SecretName, string>, current: Settings, next: Settings, after: map<SecretName, string>)
    requires StoreIs(after, before, current, next)
    ensures EverySecretOwned(current, before) ==> EverySecretOwned(Persisted(current, next), after)
  {
    if EverySecretOwned(current, before) {
      forall name <- after
        ensures if name.ProviderEnv? then Owns(Persisted(current, next), name.instance, name.variable)
                else name.source in Persisted(current, next).sources
      {
        assert Lookup(after, name) == StoredAfter(before, current, next, name);
        if name.ProviderEnv? {
          if LastWrite(EnvironmentOf(current, name.instance), EnvironmentOf(next, name.instance), name.variable).Put? {
            PutHasAnOwner(EnvironmentOf(current, name.instance), EnvironmentOf(next, name.instance), name.variable);
          }
          PersistedOwns(current, next, name.instance, name.variable);
        }
      }
    }
  }

  // ----- Split and join undo each other -----

  /** Where the entry that wins for a name stands; -1 if there is none. */
  function LastIndexOf(environment: seq<Variable>, name: string): int {
    if environment == [] then -1
    else if environment[|environment| - 1].name == name then |environment| - 1
    else LastIndexOf(environment[..|environment| - 1], name)
  }

  lemma {:induction false} LastIndexIs(environment: seq<Variable>, name: string)
    ensures var k := LastIndexOf(environment, name);
      && -1 <= k < |environment|
      && (forall j :: k < j < |environment| ==> environment[j].name != name)
      && (if k < 0 then FindLast(environment, name) == None
          else environment[k].name == name && FindLast(environment, name) == Some(environment[k]))
  {
    if environment != [] && environment[|environment| - 1].name != name {
      LastIndexIs(environment[..|environment| - 1], name);
    }
  }

  lemma {:induction false} LastWriteAtIndex(current: seq<Variable>, environment: seq<Variable>, name: string, k: nat)
    requires k < |environment| && environment[k].name == name
    requires forall j :: k < j < |environment| ==> environment[j].name != name
    ensures LastWrite(current, environment, name)
         == if WriteOf(current, environment[k]).Keep? then LastWrite(current, environment[..k], name) else WriteOf(current, environment[k])
  {
    if k < |environment| - 1 {
      var front := environment[..|environment| - 1];
      LastWriteAtIndex(current, front, name, k);
      assert front[..k] == environment[..k];
    }
  }

  lemma {:induction false} LastWriteKeeps(current: seq<Variable>, environment: seq<Variable>, name: string)
    requires forall variable <- environment :: variable.name == name ==> WriteOf(current, variable).Keep?
    ensures LastWrite(current, environment, name) == Keep
  {
    if environment != [] {
      assert environment[|environment| - 1] in environment;
      LastWriteKeeps(current, environment[..|environment| - 1], name);
    }
  }

  lemma {:induction false} LastWriteDrops(current: seq<Variable>, environment: seq<Variable>, name: string)
    requires forall variable <- environment :: variable.name == name ==> !WriteOf(current, variable).Put?
    requires exists variable <- environment :: variable.name == name && WriteOf(current, variable).Drop?
    ensures LastWrite(current, environment, name) == Drop
  {
    var last := environment[|environment| - 1];
    assert last in environment;
    if !(last.name == name && WriteOf(current, last).Drop?) {
      LastWriteDrops(current, environment[..|environment| - 1], name);
    }
  }

  /** What every variable reads as after an update: its own text if it is not sensitive, nothing if it
      was emptied, and otherwise what the last write under its name, or failing that the store before,
      holds. */
  lemma UpdatedValue(before: map<SecretName, string>, current: Settings, next: Settings, after: map<SecretName, string>, instance: string, k: nat)
    requires StoreIs(after, before, current, next)
    requires k < |EnvironmentOf(next, instance)|
    ensures var given, read := EnvironmentOf(next, instance)[k], EnvironmentOf(Materialized(Persisted(current, next), after), instance);
      && k < |read| && read[k].name == given.name && read[k].sensitive == given.sensitive
      && read[k].value ==
         if !given.sensitive then given.value
         else if WriteOf(EnvironmentOf(current, instance), given).Drop? then ""
         else TextOr(Applied(LastWrite(EnvironmentOf(current, instance), EnvironmentOf(next, instance), given.name),
                             Lookup(before, ProviderEnv(instance, given.name))))
  {
    var given := EnvironmentOf(next, instance)[k];
    assert EnvironmentOf(Persisted(current, next), instance)[k] == PersistedVariable(EnvironmentOf(current, instance), given);
    if given.sensitive {
      assert Owns(next, instance, given.name);
      assert Lookup(after, ProviderEnv(instance, given.name)) == StoredAfter(before, current, next, ProviderEnv(instance, given.name));
    }
  }

  /** The value a variable sent back redacted stands for: the one still readable, or the stored one. */
  function PreviousValue(current: Settings, before: map<SecretName, string>, instance: string, variable: Variable): string {
    var inline := InlineValue(EnvironmentOf(current, instance), variable);
    if inline.Some? then inline.value else TextOr(Lookup(before, ProviderEnv(instance, variable.name)))
  }

  predicate DistinctNames(environment: seq<Variable>) {
    forall i, j :: 0 <= i < j < |environment| ==> environment[i].name != environment[j].name
  }

  /** Persisting and then materializing gives every sensitive variable the value it was given, or its
      previous value when it was sent back redacted. */
  lemma JoinUndoesSplit(before: map<SecretName, string>, current: Settings, next: Settings, after: map<SecretName, string>, instance: string, k: nat)
    requires StoreIs(after, before, current, next)
    requires DistinctNames(EnvironmentOf(next, instance)) && k < |EnvironmentOf(next, instance)|
    ensures var given, read := EnvironmentOf(next, instance)[k], EnvironmentOf(Materialized(Persisted(current, next), after), instance);
      && k < |read|
      && read[k].value == if given.sensitive && given.valueRedacted then PreviousValue(current, before, instance, given) else given.value
  {
    var environment := EnvironmentOf(next, instance);
    var cur := EnvironmentOf(current, instance);
    UpdatedValue(before, current, next, after, instance, k);
    LastWriteAtIndex(cur, environment, environment[k].name, k);
    if WriteOf(cur, environment[k]).Keep? {
      LastWriteKeeps(cur, environment[..k], environment[k].name);
    }
  }

  /** The same for a source: its new key, or the stored one when the marker was sent back. */
  lemma JoinUndoesSplitForSources(before: map<SecretName, string>, current: Settings, next: Settings, after: map<SecretName, string>, source: string)
    requires StoreIs(after, before, current, next) && source in next.sources
    ensures Materialized(Persisted(current, next), after).sources[source].managementKey
         == if next.sources[source].managementKey == KEY_REDACTED then TextOr(Lookup(before, UsageLimitSource(source)))
            else next.sources[source].managementKey
  {
    assert Lookup(after, UsageLimitSource(source)) == StoredAfter(before, current, next, UsageLimitSource(source));
  }

  /** Giving a variable twice in one instance can break the promise: a plain entry earlier in the list
      makes the store drop the secret the later, redacted entry wanted kept. */
  lemma DuplicateNameLosesSecret() returns (before: map<SecretName, string>, current: Settings, after: map<SecretName, string>)
    ensures StoreIs(after, before, current, current) && NoPlaintext(current) && EverySecretOwned(current, before)
    ensures var given, read := EnvironmentOf(current, "p"), EnvironmentOf(Materialized(Persisted(current, current), after), "p");
      && |given| == |read| == 2 && given[1].sensitive && given[1].valueRedacted
      && PreviousValue(current, before, "p", given[1]) == "hunter2" && read[1].value == ""
  {
    var secret := Variable("TOKEN", "", true, true);
    var environment := [Variable("TOKEN", "plain", false, false), secret];
    current := Settings(map["p" := Instance(Some(environment), "")], map[], "");
    before, after := map[ProviderEnv("p", "TOKEN") := "hunter2"], map[];
    assert secret in EnvironmentOf(current, "p") && Owns(current, "p", "TOKEN");
    LastWriteAtIndex(environment, environment, "TOKEN", 1);
    LastWriteAtIndex(environment, environment[..1], "TOKEN", 0);
    forall name: SecretName
      ensures Lookup(after, name) == StoredAfter(before, current, current, name)
    {
      if name.ProviderEnv? && name != ProviderEnv("p", "TOKEN") {
        var cur := EnvironmentOf(current, name.instance);
        if LastWrite(cur, cur, name.variable).Put? {
          PutHasAnOwner(cur, cur, name.variable);
        }
      }
    }
    UpdatedValue(before, current, current, after, "p", 1);
  }

  // ----- A client sends back the view it was given -----

  /** The value a provider process gets under a name. */
  function EffectiveValue(settings: Settings, secrets: map<SecretName, string>, instance: string, name: string): Option<string> {
    var last := FindLast(EnvironmentOf(Materialized(settings, secrets), instance), name);
    if last.Some? then Some(last.value.value) else None
  }

  function Echo(settings: Settings, secrets: map<SecretName, string>): Settings {
    Redacted(Materialized(settings, secrets))
  }

  lemma InstanceViewIsBlind(instance: Instance, id: string, x: map<SecretName, string>, y: map<SecretName, string>)
    ensures RedactedInstance(MaterializedInstance(x, id, instance)) == RedactedInstance(MaterializedInstance(y, id, instance))
  {
    if instance.environment.Some? {
      var environment := instance.environment.value;
      forall k | 0 <= k < |environment|
        ensures EchoedVariable(x, id, environment[k]) == EchoedVariable(y, id, environment[k])
      {
      }
      assert RedactedInstance(MaterializedInstance(x, id, instance)).environment.value
          == RedactedInstance(MaterializedInstance(y, id, instance)).environment.value;
    }
  }

  predicate HasKey(secrets: map<SecretName, string>, source: string) {
    TextOr(Lookup(secrets, UsageLimitSource(source))) != ""
  }

  lemma SourceViewIsNearlyBlind(source: Source, id: string, x: map<SecretName, string>, y: map<SecretName, string>)
    ensures RedactedSource(MaterializedSource(x, id, source)) == RedactedSource(MaterializedSource(y, id, source))
       <==> (source.managementKey == KEY_REDACTED ==> (HasKey(x, id) <==> HasKey(y, id)))
  {
  }

  /** Two stores give a client the same view exactly when they hold keys for the same sources: of every
      other stored secret, and of the text of these, the view says nothing. */
  lemma ViewRevealsNoSecret(settings: Settings, x: map<SecretName, string>, y: map<SecretName, string>)
    ensures Echo(settings, x) == Echo(settings, y) <==>
      forall id <- settings.sources :: settings.sources[id].managementKey == KEY_REDACTED ==> (HasKey(x, id) <==> HasKey(y, id))
  {
    var viewX, viewY := Echo(settings, x), Echo(settings, y);
    forall id <- settings.instances
      ensures viewX.instances[id] == viewY.instances[id]
    {
      InstanceViewIsBlind(settings.instances[id], id, x, y);
    }
    assert viewX.instances == viewY.instances;
    forall id <- settings.sources
      ensures viewX.sources[id] == viewY.sources[id]
         <==> (settings.sources[id].managementKey == KEY_REDACTED ==> (HasKey(x, id) <==> HasKey(y, id)))
    {
      SourceViewIsNearlyBlind(settings.sources[id], id, x, y);
    }
    assert viewX.sources.Keys == settings.sources.Keys == viewY.sources.Keys;
    if forall id <- settings.sources :: viewX.sources[id] == viewY.sources[id] {
      assert viewX.sources == viewY.sources;
    }
  }

  /** An entry without a secret to keep: a plain one, or an empty one. */
  predicate IsSecretless(variable: Variable) {
    !variable.sensitive || (!variable.valueRedacted && variable.value == "")
  }

  /** Another entry of the same name has no secret to keep. */
  predicate HasSecretlessNamesake(environment: seq<Variable>, name: string) {
    exists variable <- environment :: variable.name == name && IsSecretless(variable)
  }

  /** The one way a name loses its value when a view is sent back unchanged. */
  predicate LosesToNamesake(settings: Settings, secrets: map<SecretName, string>, instance: string, name: string) {
    var environment := EnvironmentOf(settings, instance);
    var last := FindLast(environment, name);
    && last.Some? && last.value.sensitive && last.value.valueRedacted
    && TextOr(Lookup(secrets, ProviderEnv(instance, name))) != ""
    && HasSecretlessNamesake(environment, name)
  }

  function EchoedVariable(secrets: map<SecretName, string>, instance: string, variable: Variable): Variable {
    RedactedVariable(MaterializedVariable(secrets, instance, variable))
  }

  lemma EchoIsPointwise(settings: Settings, secrets: map<SecretName, string>, instance: string)
    ensures var environment, echoed := EnvironmentOf(settings, instance), EnvironmentOf(Echo(settings, secrets), instance);
      && |echoed| == |environment|
      && forall k :: 0 <= k < |environment| ==> echoed[k] == EchoedVariable(secrets, instance, environment[k])
  {
  }

  lemma SameNamesSameIndex(a: seq<Variable>, b: seq<Variable>, name: string)
    requires |a| == |b| && forall k :: 0 <= k < |a| ==> a[k].name == b[k].name
    ensures LastIndexOf(a, name) == LastIndexOf(b, name)
  {
    LastIndexIs(a, name);
    LastIndexIs(b, name);
  }

  /** When the winning entry's secret is in the store, echoing a namesake does nothing, or drops it. */
  lemma EchoedWrite(environment: seq<Variable>, secrets: map<SecretName, string>, instance: string, variable: Variable)
    requires FindLast(environment, variable.name).Some?
    requires var last := FindLast(environment, variable.name).value; last.sensitive && last.valueRedacted
    ensures WriteOf(environment, EchoedVariable(secrets, instance, variable))
         == if !variable.sensitive || (!variable.valueRedacted && variable.value == "") then Drop else Keep
  {
  }

  lemma EchoedLastWrite(environment: seq<Variable>, echoed: seq<Variable>, secrets: map<SecretName, string>, instance: string, name: string)
    requires |echoed| == |environment|
    requires forall k :: 0 <= k < |environment| ==> echoed[k] == EchoedVariable(secrets, instance, environment[k])
    requires FindLast(environment, name).Some?
    requires var last := FindLast(environment, name).value; last.sensitive && last.valueRedacted
    ensures LastWrite(environment, echoed, name) == if HasSecretlessNamesake(environment, name) then Drop else Keep
  {
    forall k | 0 <= k < |environment| && environment[k].name == name
      ensures WriteOf(environment, echoed[k]) == if IsSecretless(environment[k]) then Drop else Keep
    {
      EchoedWrite(environment, secrets, instance, environment[k]);
    }
    assert forall k :: 0 <= k < |environment| ==> echoed[k].name == environment[k].name;
    NamesakeDecides(environment, echoed, name);
  }

  lemma NamesakeDecides(environment: seq<Variable>, echoed: seq<Variable>, name: string)
    requires |echoed| == |environment| && forall k :: 0 <= k < |environment| ==> echoed[k].name == environment[k].name
    requires forall k :: 0 <= k < |environment| && environment[k].name == name ==>
      WriteOf(environment, echoed[k]) == if IsSecretless(environment[k]) then Drop else Keep
    ensures LastWrite(environment, echoed, name) == if HasSecretlessNamesake(environment, name) then Drop else Keep
  {
    if HasSecretlessNamesake(environment, name) {
      var variable :| variable in environment && variable.name == name && IsSecretless(variable);
      var k :| 0 <= k < |environment| && environment[k] == variable;
      assert echoed[k] in echoed;
      LastWriteDrops(environment, echoed, name);
    } else {
      forall k | 0 <= k < |echoed| && echoed[k].name == name
        ensures WriteOf(environment, echoed[k]).Keep?
      {
        assert environment[k] in environment;
      }
      LastWriteKeeps(environment, echoed, name);
    }
  }

  lemma EffectiveValueIs(settings: Settings, secrets: map<SecretName, string>, instance: string, name: string)
    ensures var environment := EnvironmentOf(settings, instance);
      var k := LastIndexOf(environment, name);
      && k < |environment|
      && EffectiveValue(settings, secrets, instance, name)
         == if k < 0 then None else Some(MaterializedVariable(secrets, instance, environment[k]).value)
  {
    var environment, read := EnvironmentOf(settings, instance), EnvironmentOf(Materialized(settings, secrets), instance);
    SameNamesSameIndex(environment, read, name);
    LastIndexIs(environment, name);
    LastIndexIs(read, name);
  }

  lemma PersistingKeepsIndices(current: Settings, next: Settings, instance: string, name: string)
    ensures LastIndexOf(EnvironmentOf(Persisted(current, next), instance), name) == LastIndexOf(EnvironmentOf(next, instance), name)
    ensures |EnvironmentOf(Persisted(current, next), instance)| == |EnvironmentOf(next, instance)|
  {
    SameNamesSameIndex(EnvironmentOf(next, instance), EnvironmentOf(Persisted(current, next), instance), name);
  }

  lemma EffectiveValueAfterEcho(before: map<SecretName, string>, current: Settings, after: map<SecretName, string>, instance: string, name: string)
    requires StoreIs(after, before, current, Echo(current, before))
    ensures var environment, next := EnvironmentOf(current, instance), Echo(current, before);
      var k := LastIndexOf(environment, name);
      && k < |environment| == |EnvironmentOf(next, instance)|
      && (k >= 0 ==> EnvironmentOf(next, instance)[k] == EchoedVariable(before, instance, environment[k]))
      && EffectiveValue(Persisted(current, next), after, instance, name)
         == if k < 0 then None else Some(EnvironmentOf(Materialized(Persisted(current, next), after), instance)[k].value)
  {
    var next := Echo(current, before);
    EchoIsPointwise(current, before, instance);
    LastIndexIs(EnvironmentOf(current, instance), name);
    SameNamesSameIndex(EnvironmentOf(current, instance), EnvironmentOf(next, instance), name);
    PersistingKeepsIndices(current, next, instance, name);
    EffectiveValueIs(Persisted(current, next), after, instance, name);
  }

  /** The value an entry reads as after its echo, from the entry and the last write under its name. */
  lemma EchoedEntry(environment: seq<Variable>, secrets: map<SecretName, string>, instance: string, k: nat)
    requires k < |environment| && FindLast(environment, environment[k].name) == Some(environment[k])
    requires environment[k].sensitive && !environment[k].valueRedacted
    ensures WriteOf(environment, EchoedVariable(secrets, instance, environment[k]))
         == if environment[k].value == "" then Drop else Put(environment[k].value)
  {
  }

  function ValueAfterEcho(environment: seq<Variable>, secrets: map<SecretName, string>, instance: string, entry: Variable): string {
    if entry.sensitive && entry.valueRedacted && HasSecretlessNamesake(environment, entry.name) then ""
    else MaterializedVariable(secrets, instance, entry).value
  }

  lemma EchoedDecision(environment: seq<Variable>, echoed: seq<Variable>, secrets: map<SecretName, string>, instance: string, k: nat)
    requires |echoed| == |environment|
    requires forall k :: 0 <= k < |environment| ==> echoed[k] == EchoedVariable(secrets, instance, environment[k])
    requires k < |environment| && LastIndexOf(environment, environment[k].name) == k && environment[k].sensitive
    ensures ValueAfterEcho(environment, secrets, instance, environment[k])
         == if WriteOf(environment, echoed[k]).Drop? then ""
            else TextOr(Applied(LastWrite(environment, echoed, environment[k].name), Lookup(secrets, ProviderEnv(instance, environment[k].name))))
  {
    LastIndexIs(environment, environment[k].name);
    if environment[k].valueRedacted {
      EchoedWrite(environment, secrets, instance, environment[k]);
      EchoedLastWrite(environment, echoed, secrets, instance, environment[k].name);
    } else {
      EchoedEntry(environment, secrets, instance, k);
      LastWriteAtIndex(environment, echoed, environment[k].name, k);
    }
  }

  /** What the winning entry reads as once its view came back. */
  lemma EchoedValue(before: map<SecretName, string>, current: Settings, after: map<SecretName, string>, instance: string, k: nat)
    requires StoreIs(after, before, current, Echo(current, before))
    requires k < |EnvironmentOf(current, instance)|
    requires LastIndexOf(EnvironmentOf(current, instance), EnvironmentOf(current, instance)[k].name) == k
    ensures var read := EnvironmentOf(Materialized(Persisted(current, Echo(current, before)), after), instance);
      && k < |read|
      && read[k].value == ValueAfterEcho(EnvironmentOf(current, instance), before, instance, EnvironmentOf(current, instance)[k])
  {
    var environment, echoed := EnvironmentOf(current, instance), EnvironmentOf(Echo(current, before), instance);
    EchoIsPointwise(current, before, instance);
    UpdatedValue(before, current, Echo(current, before), after, instance, k);
    if environment[k].sensitive {
      EchoedDecision(environment, echoed, before, instance, k);
    }
  }

  /** Sending a view back unchanged keeps the value of a provider variable exactly when no namesake
      without a secret stands beside it. */
  lemma EchoKeepsValueExactly(before: map<SecretName, string>, current: Settings, after: map<SecretName, string>, instance: string, name: string)
    requires StoreIs(after, before, current, Echo(current, before))
    ensures EffectiveValue(Persisted(current, Echo(current, before)), after, instance, name) == EffectiveValue(current, before, instance, name)
       <==> !LosesToNamesake(current, before, instance, name)
  {
    LastIndexIs(EnvironmentOf(current, instance), name);
    EffectiveValueIs(current, before, instance, name);
    EffectiveValueAfterEcho(before, current, after, instance, name);
    var k := LastIndexOf(EnvironmentOf(current, instance), name);
    if k >= 0 {
      EchoedValue(before, current, after, instance, k);
    }
  }

  lemma DistinctHasNoNamesake(environment: seq<Variable>, name: string)
    requires DistinctNames(environment)
    requires FindLast(environment, name).Some?
    requires var last := FindLast(environment, name).value; last.sensitive && last.valueRedacted
    ensures !HasSecretlessNamesake(environment, name)
  {
    LastIndexIs(environment, name);
  }

  /** With distinct names, then, it keeps every value. */
  lemma EchoKeepsValues(before: map<SecretName, string>, current: Settings, after: map<SecretName, string>, instance: string, name: string)
    requires StoreIs(after, before, current, Echo(current, before))
    requires DistinctNames(EnvironmentOf(current, instance))
    ensures EffectiveValue(Persisted(current, Echo(current, before)), after, instance, name) == EffectiveValue(current, before, instance, name)
  {
    EchoKeepsValueExactly(before, current, after, instance, name);
    if LosesToNamesake(current, before, instance, name) {
      DistinctHasNoNamesake(EnvironmentOf(current, instance), name);
    }
  }

  /** A source's key survives the same exactly when it is not readable in the settings file: unlike a
      variable's value, a key typed into the file is not moved to the store when its marker comes back. */
  lemma EchoKeepsKeyExactly(before: map<SecretName, string>, current: Settings, after: map<SecretName, string>, source: string)
    requires StoreIs(after, before, current, Echo(current, before)) && source in current.sources
    ensures Materialized(Persisted(current, Echo(current, before)), after).sources[source].managementKey
         == Materialized(current, before).sources[source].managementKey
       <==> current.sources[source].managementKey in {"", KEY_REDACTED, TextOr(Lookup(before, UsageLimitSource(source)))}
  {
    JoinUndoesSplitForSources(before, current, Echo(current, before), after, source);
  }

  /** So a key typed into the file is lost as soon as a client sends its view back. */
  lemma TypedKeyIsLost() returns (current: Settings, after: map<SecretName, string>)
    ensures StoreIs(after, map[], current, Echo(current, map[])) && "s" in current.sources
    ensures Materialized(current, map[]).sources["s"].managementKey == "typed"
    ensures Materialized(Persisted(current, Echo(current, map[])), after).sources["s"].managementKey == ""
  {
    current, after := Settings(map[], map["s" := Source("typed", "")], ""), map[];
    assert Echo(current, map[]).sources["s"].managementKey == KEY_REDACTED;
    forall name: SecretName
      ensures Lookup(after, name) == StoredAfter(map[], current, Echo(current, map[]), name)
    {
    }
    JoinUndoesSplitForSources(map[], current, Echo(current, map[]), after, "s");
  }

  // ----- An update that fails before the settings are written -----

  /** All that an update does to one name of the store. */
  function TotalWrite(current: Settings, next: Settings, name: SecretName): Write {
    match name
    case ProviderEnv(instance, variable) =>
      if Owns(current, instance, variable) && !Owns(next, instance, variable) then Drop
      else LastWrite(EnvironmentOf(current, instance), EnvironmentOf(next, instance), variable)
    case UsageLimitSource(source) =>
      if source in next.sources then SourceWrite(next.sources[source]) else if source in current.sources then Drop else Keep
  }

  lemma StoredIsApplied(secrets: map<SecretName, string>, current: Settings, next: Settings, name: SecretName)
    ensures StoredAfter(secrets, current, next, name) == Applied(TotalWrite(current, next, name), Lookup(secrets, name))
  {
  }

  /** The store somewhere in the middle of an update: names the update keeps are as before. */
  ghost predicate IsPartWritten(part: map<SecretName, string>, before: map<SecretName, string>, current: Settings, next: Settings) {
    forall name: SecretName :: TotalWrite(current, next, name).Keep? ==> Lookup(part, name) == Lookup(before, name)
  }

  /** However far the store got, doing the same update again ends as if the first had not failed. */
  lemma RetryCompletes(before: map<SecretName, string>, part: map<SecretName, string>, current: Settings, next: Settings, after: map<SecretName, string>)
    requires IsPartWritten(part, before, current, next) && StoreIs(after, part, current, next)
    ensures StoreIs(after, before, current, next)
  {
    forall name: SecretName
      ensures Lookup(after, name) == StoredAfter(before, current, next, name)
    {
      StoredIsApplied(part, current, next, name);
      StoredIsApplied(before, current, next, name);
    }
  }

  predicate Preserves(write: Write, stored: Option<string>) {
    match write
    case Keep => true
    case Put(value) => value == TextOr(stored)
    case Drop => TextOr(stored) == ""
  }

  /** If the settings are not written, the old ones read from the new store: a withheld value survives
      exactly if the update keeps it, or writes the text it already had. */
  lemma UnfinishedUpdateKeepsExactly(before: map<SecretName, string>, current: Settings, next: Settings, after: map<SecretName, string>, instance: string, k: nat)
    requires StoreIs(after, before, current, next) && k < |EnvironmentOf(current, instance)|
    requires EnvironmentOf(current, instance)[k].sensitive && EnvironmentOf(current, instance)[k].valueRedacted
    ensures var name := ProviderEnv(instance, EnvironmentOf(current, instance)[k].name);
      var read, was := EnvironmentOf(Materialized(current, after), instance), EnvironmentOf(Materialized(current, before), instance);
      && k < |read| == |was|
      && (read[k].value == was[k].value <==> Preserves(TotalWrite(current, next, name), Lookup(before, name)))
  {
    StoredIsApplied(before, current, next, ProviderEnv(instance, EnvironmentOf(current, instance)[k].name));
  }

  lemma UnfinishedUpdateKeepsKeyExactly(before: map<SecretName, string>, current: Settings, next: Settings, after: map<SecretName, string>, source: string)
    requires StoreIs(after, before, current, next) && source in current.sources && current.sources[source].managementKey == KEY_REDACTED
    ensures Materialized(current, after).sources[source].managementKey == Materialized(current, before).sources[source].managementKey
       <==> Preserves(TotalWrite(current, next, UsageLimitSource(source)), Lookup(before, UsageLimitSource(source)))
  {
    StoredIsApplied(before, current, next, UsageLimitSource(source));
  }

  predicate OwnsName(settings: Settings, name: SecretName) {
    if name.ProviderEnv? then Owns(settings, name.instance, name.variable) else name.source in settings.sources
  }

  /** It leaves a secret without an owner exactly if it stored one for a variable or source that the old
      settings do not have. */
  lemma UnfinishedUpdateOrphansExactly(before: map<SecretName, string>, current: Settings, next: Settings, after: map<SecretName, string>)
    requires StoreIs(after, before, current, next) && EverySecretOwned(current, before)
    ensures EverySecretOwned(current, after) <==> forall name: SecretName :: TotalWrite(current, next, name).Put? ==> OwnsName(current, name)
  {
    forall name: SecretName
      ensures name in after <==> StoredAfter(before, current, next, name).Some?
    {
      assert Lookup(after, name) == StoredAfter(before, current, next, name);
    }
    forall name: SecretName
      ensures StoredAfter(before, current, next, name) == Applied(TotalWrite(current, next, name), Lookup(before, name))
    {
      StoredIsApplied(before, current, next, name);
    }
    if EverySecretOwned(current, after) {
      forall name: SecretName | TotalWrite(current, next, name).Put?
        ensures OwnsName(current, name)
      {
        assert name in after;
      }
    }
    if forall name: SecretName :: TotalWrite(current, next, name).Put? ==> OwnsName(current, name) {
      forall name <- after
        ensures OwnsName(current, name)
      {
        if !TotalWrite(current, next, name).Put? {
          assert name in before;
        }
      }
    }
  }

  // ----- The service -----

  class SettingsService {
    /** The settings as they are on disk, also cached. */
    var persisted: Settings
    var secrets: map<SecretName, string>

    constructor (persisted: Settings, secrets: map<SecretName, string>)
      ensures this.persisted == persisted && this.secrets == secrets
    {
      this.persisted, this.secrets := persisted, secrets;
    }

    method MaterializeEnvironment(id: string, environment: seq<Variable>) returns (materialized: seq<Variable>)
      ensures materialized == MaterializedEnvironment(secrets, id, environment)
    {
      materialized := [];
      for k := 0 to |environment|
        invariant materialized == MaterializedEnvironment(secrets, id, environment)[..k]
      {
        var variable := environment[k];
        if !variable.sensitive || !variable.valueRedacted {
          materialized := materialized + [variable];
        } else {
          var name := ProviderEnv(id, variable.name);
          var secret := if name in secrets then Some(secrets[name]) else None;
          materialized := materialized + [variable.(value := if secret.Some? then secret.value else "")];
        }
      }
    }

    /** `materializeProviderEnvironmentSecrets`. */
    method Materialize(settings: Settings) returns (materialized: Settings)
      ensures materialized == Materialized(settings, secrets)
    {
      var instances := settings.instances;
      var remaining := settings.instances.Keys;
      while remaining != {}
        invariant remaining <= settings.instances.Keys && instances.Keys == settings.instances.Keys
        invariant forall id <- settings.instances ::
          instances[id] == if id in remaining then settings.instances[id] else MaterializedInstance(secrets, id, settings.instances[id])
      {
        var id :| id in remaining;
        remaining := remaining - {id};
        var instance := settings.instances[id];
        if instance.environment.Some? {
          var environment := MaterializeEnvironment(id, instance.environment.value);
          instances := instances[id := instance.(environment := Some(environment))];
        }
      }
      var sources: map<string, Source> := map[];
      remaining := settings.sources.Keys;
      while remaining != {}
        invariant remaining <= settings.sources.Keys && sources.Keys == settings.sources.Keys - remaining
        invariant forall id <- sources :: sources[id] == MaterializedSource(secrets, id, settings.sources[id])
      {
        var id :| id in remaining;
        remaining := remaining - {id};
        var source := settings.sources[id];
        if source.managementKey == KEY_REDACTED {
          var name := UsageLimitSource(id);
          source := source.(managementKey := if name in secrets then secrets[name] else "");
        }
        sources := sources[id := source];
      }
      materialized := settings.(instances := instances, sources := sources);
    }

    /** One instance's variables, in order: each one writes, removes or keeps its secret. */
    method PersistEnvironment(id: string, current: seq<Variable>, environment: seq<Variable>, keys: set<SecretName>)
      returns (result: seq<Variable>, keys': set<SecretName>)
      modifies this`secrets
      ensures |result| == |environment| && forall k :: 0 <= k < |result| ==> result[k] == PersistedVariable(current, environment[k])
      ensures forall name :: name in keys' <==> name in keys || NamesSensitive(name, id, environment)
      ensures forall name: SecretName ::
        Lookup(secrets, name) == WrittenBy(id, current, environment, name, Lookup(old(secrets), name))
    {
      result, keys' := [], keys;
      for k := 0 to |environment|
        invariant |result| == k && forall j :: 0 <= j < k ==> result[j] == PersistedVariable(current, environment[j])
        invariant forall name :: name in keys' <==> name in keys || NamesSensitive(name, id, environment[..k])
        invariant forall name: SecretName ::
          Lookup(secrets, name) == WrittenBy(id, current, environment[..k], name, Lookup(old(secrets), name))
      {
        var variable := environment[k];
        var name := ProviderEnv(id, variable.name);
        assert environment[..k + 1] == environment[..k] + [variable];
        if !variable.sensitive {
          secrets := secrets - {name};
          result := result + [RedactedVariable(variable)];
        } else {
          keys' := keys' + {name};
          var previous := if variable.valueRedacted then FindLast(current, variable.name) else None;
          var inline := if previous.Some? && previous.value.sensitive && !previous.value.valueRedacted && |previous.value.value| > 0
                        then Some(previous.value.value) else None;
          var value := if inline.Some? then inline.value else variable.value;
          if !variable.valueRedacted || inline.Some? {
            if |value| > 0 {
              secrets := secrets[name := value];
              result := result + [variable.(value := "", valueRedacted := true)];
            } else {
              secrets := secrets - {name};
              result := result + [variable.(valueRedacted := false)];
            }
          } else {
            result := result + [RedactedVariable(variable)];
          }
        }
      }
      assert environment[..|environment|] == environment;
    }

    /** First loop: the variables of the new settings. */
    method PersistInstances(current: Settings, next: Settings) returns (instances: map<string, Instance>, keys: set<SecretName>)
      modifies this`secrets
      ensures instances == Persisted(current, next).instances
      ensures forall name :: name in keys <==> name.ProviderEnv? && Owns(next, name.instance, name.variable)
      ensures forall name: SecretName :: Lookup(secrets, name) == WrittenByAll(current, next, name, Lookup(old(secrets), name))
    {
      instances, keys := next.instances, {};
      var remaining := next.instances.Keys;
      while remaining != {}
        invariant remaining <= next.instances.Keys && instances.Keys == next.instances.Keys
        invariant forall id <- next.instances ::
          instances[id] == if id in remaining then next.instances[id] else PersistedInstance(EnvironmentOf(current, id), next.instances[id])
        invariant forall name :: name in keys <==> name.ProviderEnv? && name.instance !in remaining && Owns(next, name.instance, name.variable)
        invariant forall name: SecretName :: name.ProviderEnv? && name.instance !in remaining ==>
          Lookup(secrets, name) == WrittenByAll(current, next, name, Lookup(old(secrets), name))
        invariant forall name: SecretName :: !(name.ProviderEnv? && name.instance !in remaining) ==>
          Lookup(secrets, name) == Lookup(old(secrets), name)
      {
        var id :| id in remaining;
        remaining := remaining - {id};
        var instance := next.instances[id];
        if instance.environment.Some? {
          var environment, keys' := PersistEnvironment(id, EnvironmentOf(current, id), instance.environment.value, keys);
          keys := keys';
          assert PersistedInstance(EnvironmentOf(current, id), instance).environment.value == environment;
          instances := instances[id := instance.(environment := Some(environment))];
        }
      }
    }

    /** Second loop: secrets of variables that are gone or no longer sensitive. */
    method RemoveStale(current: Settings, keys: set<SecretName>)
      modifies this`secrets
      ensures forall name: SecretName ::
        Lookup(secrets, name) == (if name.ProviderEnv? && Owns(current, name.instance, name.variable) && name !in keys then None else Lookup(old(secrets), name))
    {
      var remaining := current.instances.Keys;
      while remaining != {}
        invariant remaining <= current.instances.Keys
        invariant forall name: SecretName ::
          Lookup(secrets, name) == (if name.ProviderEnv? && name.instance !in remaining && Owns(current, name.instance, name.variable) && name !in keys then None
           else Lookup(old(secrets), name))
      {
        var id :| id in remaining;
        remaining := remaining - {id};
        var environment := EnvironmentOf(current, id);
        ghost var before := secrets;
        for k := 0 to |environment|
          invariant forall name: SecretName ::
            Lookup(secrets, name) == (if NamesSensitive(name, id, environment[..k]) && name !in keys then None else Lookup(before, name))
        {
          assert environment[..k + 1] == environment[..k] + [environment[k]];
          var name := ProviderEnv(id, environment[k].name);
          if environment[k].sensitive && name !in keys {
            secrets := secrets - {name};
          }
        }
        assert environment[..|environment|] == environment;
      }
    }

    /** Third and fourth loops: keys of usage-limit sources. */
    method PersistSources(current: Settings, next: Settings) returns (sources: map<string, Source>)
      modifies this`secrets
      ensures sources == Persisted(current, next).sources
      ensures forall name: SecretName ::
        Lookup(secrets, name) == (if name.UsageLimitSource? then StoredAfter(old(secrets), current, next, name) else Lookup(old(secrets), name))
    {
      sources := map[];
      var remaining := next.sources.Keys;
      while remaining != {}
        invariant remaining <= next.sources.Keys && sources.Keys == next.sources.Keys - remaining
        invariant forall id <- sources :: sources[id] == PersistedSource(next.sources[id])
        invariant forall name: SecretName ::
          Lookup(secrets, name) == (if name.UsageLimitSource? && name.source in sources then StoredAfter(old(secrets), current, next, name)
           else Lookup(old(secrets), name))
      {
        var id :| id in remaining;
        remaining := remaining - {id};
        var source := next.sources[id];
        if source.managementKey != KEY_REDACTED {
          if |source.managementKey| == 0 {
            secrets := secrets - {UsageLimitSource(id)};
          } else {
            secrets := secrets[UsageLimitSource(id) := source.managementKey];
            source := source.(managementKey := KEY_REDACTED);
          }
        }
        sources := sources[id := source];
      }
      remaining := current.sources.Keys;
      ghost var before := secrets;
      while remaining != {}
        invariant remaining <= current.sources.Keys
        invariant forall name: SecretName ::
          Lookup(secrets, name) == (if name.UsageLimitSource? && name.source in current.sources && name.source !in remaining && name.source !in next.sources
           then None else Lookup(before, name))
      {
        var id :| id in remaining;
        remaining := remaining - {id};
        if id !in next.sources {
          secrets := secrets - {UsageLimitSource(id)};
        }
      }
    }

    /** `persistProviderEnvironmentSecrets`. */
    method Persist(current: Settings, next: Settings) returns (settings: Settings)
      modifies this`secrets
      ensures settings == Persisted(current, next)
      ensures StoreIs(secrets, old(secrets), current, next)
    {
      var instances, keys := PersistInstances(current, next);
      RemoveStale(current, keys);
      var sources := PersistSources(current, next);
      settings := next.(instances := instances, sources := sources);
    }

    /** `updateSettings`, for any way `patch` a client's patch changes the settings. */
    method UpdateSettings(patch: Settings -> Settings) returns (settings: Settings)
      modifies this
      ensures persisted == Persisted(old(persisted), patch(old(persisted)))
      ensures StoreIs(secrets, old(secrets), old(persisted), patch(old(persisted)))
      ensures settings == Materialized(persisted, secrets)
      ensures SameShape(persisted, patch(old(persisted))) && SameShape(settings, patch(old(persisted)))
      ensures NoPlaintext(persisted)
      ensures old(EverySecretOwned(persisted, secrets)) ==> EverySecretOwned(persisted, secrets)
    {
      var next := patch(persisted);
      var persisted' := Persist(persisted, next);
      NothingStaysReadable(persisted, next);
      EverySecretKeepsAnOwner(old(secrets), persisted, next, secrets);
      persisted := persisted';
      settings := Materialize(persisted);
      SettingsKeepTheirShape(old(persisted), next, secrets);
      SettingsKeepTheirShape(old(persisted), persisted, secrets);
      SameShapeAgain(settings, persisted, next);
    }
  }
}
