/** The event-sourced AI configuration: its commands, its events and every run of them. The curated
    catalog of decision models is a parameter of each step, because it rotates. */
module AiConfiguration {
  import opened Wrappers

  datatype Provider = OpenAI | Gemini | OpenRouter | EURouter | Neuralwatt | OpenCodeGo | OpenCode | Ollama

  type Catalog = set<(Provider, string)>

  /** The optional Decision Model. */
  datatype Slot = Slot(provider: Option<Provider>, model: Option<string>, vaultKey: Option<string>)

  const EMPTY_SLOT := Slot(None, None, None)

  datatype Settings = Settings(
    provider: Provider, assistantModel: string, imageModel: Option<string>, prompts: map<nat, string>, vaultKey: string)

  datatype Event =
    | Created(id: nat, user: string, settings: Settings, preference: nat, slot: Slot, version: nat)
    | Updated(id: nat, settings: Settings, newPreference: Option<nat>, slot: Slot, version: nat)
    | Revoked(id: nat, version: nat)

  datatype Error =
    | NotFound | AlreadyRevoked | ProviderMismatch | VersionMismatch(expected: nat, actual: nat)
    | EmptyModel | EmptyVaultKey | EmptyPrompt
    | DecisionProviderRequired | DecisionProviderUnsupported
    | EmptyDecisionModel | DecisionModelUnknown | EmptyDecisionVaultKey

  const INITIAL := 1

  /** The aggregate's fields; `settings` is absent until the configuration is created. */
  datatype State = State(
    id: nat, user: string, settings: Option<Settings>, preference: nat, slot: Slot, revoked: bool, version: nat)

  const DEFAULT := State(0, "", None, 0, EMPTY_SLOT, false, INITIAL)

  function Applied(s: State, e: Event): State {
    match e
    case Created(id, user, settings, preference, slot, version) =>
      State(id, user, Some(settings), preference, slot, false, version)
    case Updated(_, settings, newPreference, slot, version) =>
      s.(settings := Some(settings), preference := if newPreference.Some? then newPreference.value else s.preference,
         slot := slot, revoked := false, version := version)
    case Revoked(_, version) => s.(revoked := true, version := version)
  }

  function Fold(log: seq<Event>): State {
    if log == [] then DEFAULT else Applied(Fold(log[..|log| - 1]), log[|log| - 1])
  }

  // ---- Validation ----

  predicate Capable(p: Provider) { p.Neuralwatt? || p.EURouter? || p.OpenRouter? }

  function ValidateFields(blank: string -> bool, s: Settings): Option<Error> {
    if blank(s.assistantModel) then Some(EmptyModel)
    else if blank(s.vaultKey) then Some(EmptyVaultKey)
    else if exists k :: k in s.prompts && blank(s.prompts[k]) then Some(EmptyPrompt)
    else None
  }

  function ValidateSlot(blank: string -> bool, catalog: Catalog, slot: Slot, modelKept: bool): Option<Error> {
    if slot.provider.None? || slot.model.None? || slot.vaultKey.None? then
      if slot != EMPTY_SLOT then Some(DecisionProviderRequired) else None
    else if !Capable(slot.provider.value) then Some(DecisionProviderUnsupported)
    else if blank(slot.model.value) then Some(EmptyDecisionModel)
    else if !modelKept && (slot.provider.value, slot.model.value) !in catalog then Some(DecisionModelUnknown)
    else if blank(slot.vaultKey.value) then Some(EmptyDecisionVaultKey)
    else None
  }

  /** All or none of the slot is set, and what is set can build a scoring client. */
  predicate Complete(blank: string -> bool, slot: Slot) {
    slot == EMPTY_SLOT
    || (&& slot.provider.Some? && slot.model.Some? && slot.vaultKey.Some?
        && Capable(slot.provider.value) && !blank(slot.model.value) && !blank(slot.vaultKey.value))
  }

  predicate SameModel(a: Slot, b: Slot) { a.provider == b.provider && a.model == b.model }

  predicate Curated(catalog: Catalog, slot: Slot) {
    slot.provider.Some? && slot.model.Some? && (slot.provider.value, slot.model.value) in catalog
  }

  // ---- Commands ----

  datatype Command =
    | Create(id: nat, user: string, settings: Settings, preference: nat, slot: Slot)
    | Update(settings: Settings, newPreference: Option<nat>, provider: Option<Option<Provider>>,
             model: Option<Option<string>>, vaultKey: Option<Option<string>>, version: nat)
    | Revoke(version: nat)

  function Resolve<T>(change: Option<T>, stored: T): T { if change.Some? then change.value else stored }

  function ResolvedSlot(s: State, c: Command): Slot
    requires c.Update?
  {
    Slot(Resolve(c.provider, s.slot.provider), Resolve(c.model, s.slot.model), Resolve(c.vaultKey, s.slot.vaultKey))
  }

  function Handle(blank: string -> bool, catalog: Catalog, s: State, c: Command): Result<Event, Error> {
    match c
    case Create(id, user, settings, preference, slot) =>
      var fields, decision := ValidateFields(blank, settings), ValidateSlot(blank, catalog, slot, false);
      if fields.Some? then Err(fields.value)
      else if decision.Some? then Err(decision.value)
      else Ok(Created(id, user, settings, preference, slot, INITIAL))
    case Update(settings, newPreference, _, _, _, version) =>
      if s.settings.None? then Err(NotFound)
      else if s.revoked then Err(AlreadyRevoked)
      else if s.settings.value.provider != settings.provider && settings.vaultKey == s.settings.value.vaultKey
          then Err(ProviderMismatch)
      else if version != s.version then Err(VersionMismatch(version, s.version))
      else
        var slot := ResolvedSlot(s, c);
        var fields := ValidateFields(blank, settings);
        var decision := ValidateSlot(blank, catalog, slot, SameModel(s.slot, slot));
        if fields.Some? then Err(fields.value)
        else if decision.Some? then Err(decision.value)
        else Ok(Updated(s.id, settings, newPreference, slot, s.version + 1))
    case Revoke(version) =>
      if s.settings.None? then Err(NotFound)
      else if s.revoked then Err(AlreadyRevoked)
      else if version != s.version then Err(VersionMismatch(version, s.version))
      else Ok(Revoked(s.id, s.version + 1))
  }

  predicate FieldsSet(blank: string -> bool, s: Settings) {
    !blank(s.assistantModel) && !blank(s.vaultKey) && forall k :: k in s.prompts ==> !blank(s.prompts[k])
  }

  /** An update is accepted exactly under these conditions, and then stores the command's settings
      and keeps every field the command leaves out. */
  lemma UpdateIff(blank: string -> bool, catalog: Catalog, s: State, c: Command)
    requires c.Update?
    ensures var r, slot := Handle(blank, catalog, s, c), ResolvedSlot(s, c);
            && (r.Ok? <==>
                  && s.settings.Some? && !s.revoked && c.version == s.version
                  && (|| c.settings.provider == s.settings.value.provider
                      || c.settings.vaultKey != s.settings.value.vaultKey)
                  && FieldsSet(blank, c.settings) && Complete(blank, slot)
                  && (slot == EMPTY_SLOT || SameModel(s.slot, slot) || Curated(catalog, slot)))
            && (r.Ok? ==>
                  var t := Applied(s, r.value);
                  && t.id == s.id && t.user == s.user && t.settings == Some(c.settings)
                  && !t.revoked && t.version == s.version + 1
                  && (c.newPreference.None? ==> t.preference == s.preference)
                  && (c.newPreference.Some? ==> t.preference == c.newPreference.value)
                  && t.slot.provider == (if c.provider.Some? then c.provider.value else s.slot.provider)
                  && t.slot.model == (if c.model.Some? then c.model.value else s.slot.model)
                  && t.slot.vaultKey == (if c.vaultKey.Some? then c.vaultKey.value else s.slot.vaultKey)
                  && (c.provider == Some(None) && c.model == Some(None) && c.vaultKey == Some(None) ==>
                      t.slot == EMPTY_SLOT))
  {
  }

  /** Which check refuses an update, in which order. */
  lemma UpdateRefusals(blank: string -> bool, catalog: Catalog, s: State, c: Command)
    requires c.Update?
    ensures var r := Handle(blank, catalog, s, c);
            && (r == Err(NotFound) <==> s.settings.None?)
            && (r == Err(AlreadyRevoked) <==> s.settings.Some? && s.revoked)
            && (r == Err(ProviderMismatch) <==>
                  && s.settings.Some? && !s.revoked && s.settings.value.provider != c.settings.provider
                  && s.settings.value.vaultKey == c.settings.vaultKey)
            && (r == Err(VersionMismatch(c.version, s.version)) <==>
                  && s.settings.Some? && !s.revoked && c.version != s.version
                  && (|| s.settings.value.provider == c.settings.provider
                      || s.settings.value.vaultKey != c.settings.vaultKey))
  {}

  /** Which field is refused, in which order. */
  lemma FieldRefusals(blank: string -> bool, s: Settings)
    ensures var r := ValidateFields(blank, s);
            && (r == Some(EmptyModel) <==> blank(s.assistantModel))
            && (r == Some(EmptyVaultKey) <==> !blank(s.assistantModel) && blank(s.vaultKey))
            && (r == Some(EmptyPrompt) <==>
                  && !blank(s.assistantModel) && !blank(s.vaultKey)
                  && exists k :: k in s.prompts && blank(s.prompts[k]))
            && (r.None? <==> FieldsSet(blank, s))
  {}

  /** Which part of a decision slot is refused. */
  lemma SlotRefusals(blank: string -> bool, catalog: Catalog, slot: Slot, modelKept: bool)
    ensures var r := ValidateSlot(blank, catalog, slot, modelKept);
            var full := slot.provider.Some? && slot.model.Some? && slot.vaultKey.Some?;
            && (r == Some(DecisionProviderRequired) <==> !full && slot != Slot(None, None, None))
            && (r == Some(DecisionProviderUnsupported) <==>
                  full && slot.provider.value !in {Neuralwatt, EURouter, OpenRouter})
            && (r == Some(EmptyDecisionModel) ==> full && blank(slot.model.value))
            && (r == Some(DecisionModelUnknown) ==> full && !modelKept && !Curated(catalog, slot))
            && (r == Some(EmptyDecisionVaultKey) ==> full && blank(slot.vaultKey.value))
            && (r.None? <==> Complete(blank, slot) && (slot == EMPTY_SLOT || modelKept || Curated(catalog, slot)))
  {}

  /** A create is accepted exactly if it is valid, whatever the state, and stores all that it carries. */
  lemma CreateIff(blank: string -> bool, catalog: Catalog, s: State, c: Command)
    requires c.Create?
    ensures var r := Handle(blank, catalog, s, c);
            && (r.Ok? <==>
                  && FieldsSet(blank, c.settings) && Complete(blank, c.slot)
                  && (c.slot == EMPTY_SLOT || Curated(catalog, c.slot)))
            && (r.Ok? ==> Applied(s, r.value) == State(c.id, c.user, Some(c.settings), c.preference, c.slot, false, 1))
  {}

  /** A revoke is accepted exactly on a living configuration at its version, and keeps everything else. */
  lemma RevokeIff(blank: string -> bool, catalog: Catalog, s: State, c: Command)
    requires c.Revoke?
    ensures var r := Handle(blank, catalog, s, c);
            && (r.Ok? <==> s.settings.Some? && !s.revoked && c.version == s.version)
            && (r.Ok? ==> Applied(s, r.value) == s.(revoked := true, version := s.version + 1))
            && (r == Err(NotFound) <==> s.settings.None?)
            && (r == Err(AlreadyRevoked) <==> s.settings.Some? && s.revoked)
  {}

  /** The mutable aggregate that replay folds events into. */
  class AiConfig {
    var id: nat
    var user: string
    var settings: Option<Settings>
    var preference: nat
    var slot: Slot
    var revoked: bool
    var version: nat

    function Value(): State
      reads this
    {
      State(id, user, settings, preference, slot, revoked, version)
    }

    constructor ()
      ensures Value() == Fold([])
    {
      id, user, settings, preference := 0, "", None, 0;
      slot, revoked, version := EMPTY_SLOT, false, INITIAL;
    }

    method Apply(e: Event)
      modifies this
      ensures Value() == Applied(old(Value()), e)
    {
      match e
      case Created(i, u, s, p, d, v) =>
        id, user, settings, preference, slot := i, u, Some(s), p, d;
        revoked, version := false, v;
      case Updated(_, s, p, d, v) =>
        settings := Some(s);
        if p.Some? {
          preference := p.value;
        }
        slot, revoked, version := d, false, v;
      case Revoked(_, v) =>
        revoked, version := true, v;
    }

    method Replay(log: seq<Event>)
      requires Value() == Fold([])
      modifies this
      ensures Value() == Fold(log)
    {
      for i := 0 to |log|
        invariant Value() == Fold(log[..i])
      {
        assert log[..i + 1][..i] == log[..i];
        Apply(log[i]);
      }
      assert log[..|log|] == log;
    }
  }

  // ---- Runs ----

  datatype Step = Step(command: Command, catalog: Catalog)

  /** The accepted event joins the log; a refused command leaves it alone. */
  function Take(blank: string -> bool, log: seq<Event>, step: Step): seq<Event> {
    var r := Handle(blank, step.catalog, Fold(log), step.command);
    if r.Ok? then log + [r.value] else log
  }

  predicate CreatesTwice(log: seq<Event>, step: Step) { log != [] && step.command.Create? }

  predicate Run(blank: string -> bool, logs: seq<seq<Event>>, steps: seq<Step>) {
    && |logs| == |steps| + 1 && logs[0] == []
    && forall i :: 0 <= i < |steps| ==>
        logs[i + 1] == Take(blank, logs[i], steps[i]) && !CreatesTwice(logs[i], steps[i])
  }

  lemma FoldNext(log: seq<Event>, e: Event)
    ensures Fold(log + [e]) == Applied(Fold(log), e)
  {
    assert (log + [e])[..|log|] == log;
  }

  /** What holds of the folded state in every run. */
  predicate Good(blank: string -> bool, log: seq<Event>) {
    var s := Fold(log);
    && (s.settings.Some? <==> log != [])
    && (log != [] ==> s.version == |log|)
    && Complete(blank, s.slot)
  }

  lemma StepGood(blank: string -> bool, log: seq<Event>, step: Step)
    requires Good(blank, log) && !CreatesTwice(log, step)
    ensures Good(blank, Take(blank, log, step))
  {
    var r := Handle(blank, step.catalog, Fold(log), step.command);
    if r.Ok? {
      FoldNext(log, r.value);
    }
  }

  /** In every run the version is the number of events, and the decision slot is set as a whole with
      a capable provider or not at all. */
  lemma {:induction false} RunGood(blank: string -> bool, logs: seq<seq<Event>>, steps: seq<Step>, i: nat)
    requires Run(blank, logs, steps) && i < |logs|
    ensures Good(blank, logs[i])
  {
    if i > 0 {
      assert logs[i] == Take(blank, logs[i - 1], steps[i - 1]);
      RunGood(blank, logs, steps, i - 1);
      StepGood(blank, logs[i - 1], steps[i - 1]);
    }
  }

  /** A create command that validation lets through. */
  predicate Creatable(blank: string -> bool, catalog: Catalog, c: Command)
    requires c.Create?
  {
    FieldsSet(blank, c.settings) && Complete(blank, c.slot) && (c.slot == EMPTY_SLOT || Curated(catalog, c.slot))
  }

  /** The version keeps counting events exactly as long as no valid create meets a stream that has
      events already: the handler itself does not look. */
  lemma CountIff(blank: string -> bool, log: seq<Event>, step: Step)
    requires Good(blank, log)
    ensures Good(blank, Take(blank, log, step)) <==>
              !(CreatesTwice(log, step) && Creatable(blank, step.catalog, step.command))
  {
    if CreatesTwice(log, step) {
      var r := Handle(blank, step.catalog, Fold(log), step.command);
      if r.Ok? {
        FoldNext(log, r.value);
      }
    } else {
      StepGood(blank, log, step);
    }
  }

  const PLAIN := Settings(OpenAI, "model", None, map[], "key")

  /** A second create on a stream with one event: two events, revived at version 1. */
  lemma SecondCreateResets() returns (log: seq<Event>, step: Step)
    ensures var blank := (s: string) => s == "";
            && Good(blank, log) && CreatesTwice(log, step)
            && |Take(blank, log, step)| == 2 && Fold(Take(blank, log, step)).version == 1
  {
    var blank := (s: string) => s == "";
    var e := Created(1, "user", PLAIN, 0, EMPTY_SLOT, INITIAL);
    log, step := [e], Step(Create(1, "user", PLAIN, 0, EMPTY_SLOT), {});
    FoldNext([], e);
    assert [] + [e] == log;
    FoldNext(log, e);
  }

  /** Revocation is terminal: from a revoked state on, the log never changes. */
  lemma {:induction false} RevokedForever(
      blank: string -> bool, logs: seq<seq<Event>>, steps: seq<Step>, i: nat, j: nat)
    requires Run(blank, logs, steps) && i <= j < |logs| && Fold(logs[i]).revoked
    ensures logs[j] == logs[i]
    decreases j
  {
    if j > i {
      RevokedForever(blank, logs, steps, i, j - 1);
      RunGood(blank, logs, steps, j - 1);
    }
  }

  /** The version a command was issued against; a create carries none. */
  function Against(c: Command): Option<nat> {
    if c.Create? then None else Some(c.version)
  }

  lemma AcceptedAtCount(blank: string -> bool, logs: seq<seq<Event>>, steps: seq<Step>, i: nat)
    requires Run(blank, logs, steps) && i < |steps| && logs[i + 1] != logs[i] && Against(steps[i].command).Some?
    ensures steps[i].command.version == |logs[i]| && |logs[i + 1]| == |logs[i]| + 1
  {
    RunGood(blank, logs, steps, i);
    if steps[i].command.Update? {
      UpdateIff(blank, steps[i].catalog, Fold(logs[i]), steps[i].command);
    }
  }

  lemma {:induction false} LogGrows(blank: string -> bool, logs: seq<seq<Event>>, steps: seq<Step>, i: nat, j: nat)
    requires Run(blank, logs, steps) && i <= j < |logs|
    ensures logs[i] <= logs[j]
    decreases j
  {
    if i < j {
      LogGrows(blank, logs, steps, i, j - 1);
    }
  }

  /** Every step of a run does what its command says: an accepted create stores all that it carries, an
      accepted update its settings, and a revoke issued against the current version is accepted. */
  lemma StepsTakeEffect(blank: string -> bool, logs: seq<seq<Event>>, steps: seq<Step>, i: nat)
    requires Run(blank, logs, steps) && i < |steps|
    ensures var c, t := steps[i].command, Fold(logs[i + 1]);
            && (c.Create? && logs[i + 1] != logs[i] ==>
                  t == State(c.id, c.user, Some(c.settings), c.preference, c.slot, false, 1))
            && (c.Update? && logs[i + 1] != logs[i] ==>
                  t.settings == Some(c.settings) && t.slot == ResolvedSlot(Fold(logs[i]), c))
            && (c.Revoke? && logs[i] != [] && !Fold(logs[i]).revoked && c.version == |logs[i]| ==>
                  t == Fold(logs[i]).(revoked := true, version := |logs[i]| + 1))
  {
    var s, c, catalog := Fold(logs[i]), steps[i].command, steps[i].catalog;
    RunGood(blank, logs, steps, i);
    match c
    case Create(_, _, _, _, _) => CreateIff(blank, catalog, s, c);
    case Update(_, _, _, _, _, _) => UpdateIff(blank, catalog, s, c);
    case Revoke(_) => RevokeIff(blank, catalog, s, c);
    var r := Handle(blank, catalog, s, c);
    if r.Ok? {
      FoldNext(logs[i], r.value);
    }
  }

  /** No lost update: of the commands issued against one version of the configuration at most one is
      ever accepted, and accepted commands come in the order of their versions. */
  lemma NoLostUpdate(blank: string -> bool, logs: seq<seq<Event>>, steps: seq<Step>, i: nat, j: nat)
    requires Run(blank, logs, steps) && i < j < |steps|
    requires logs[i + 1] != logs[i] && Against(steps[i].command).Some?
    requires logs[j + 1] != logs[j] && Against(steps[j].command).Some?
    ensures steps[i].command.version < steps[j].command.version
  {
    AcceptedAtCount(blank, logs, steps, i);
    AcceptedAtCount(blank, logs, steps, j);
    LogGrows(blank, logs, steps, i + 1, j);
  }

  /** A step that changes the provider changes the vault key. */
  lemma ProviderHandOff(blank: string -> bool, logs: seq<seq<Event>>, steps: seq<Step>, i: nat)
    requires Run(blank, logs, steps) && i < |steps|
    ensures var s, t := Fold(logs[i]).settings, Fold(logs[i + 1]).settings;
            s.Some? && t.Some? && s.value.provider != t.value.provider ==> s.value.vaultKey != t.value.vaultKey
  {
    RunGood(blank, logs, steps, i);
    var r := Handle(blank, steps[i].catalog, Fold(logs[i]), steps[i].command);
    if r.Ok? {
      FoldNext(logs[i], r.value);
    }
  }

  /** Step `j` introduced the pair that all later states up to `i` carry, and it was curated then. */
  predicate Introduced(logs: seq<seq<Event>>, steps: seq<Step>, j: nat, i: nat)
    requires i < |logs| == |steps| + 1
  {
    && j < i && Curated(steps[j].catalog, Fold(logs[i]).slot)
    && forall k :: j < k <= i ==> SameModel(Fold(logs[k]).slot, Fold(logs[i]).slot)
  }

  lemma StepCurates(blank: string -> bool, log: seq<Event>, step: Step)
    ensures var s, t := Fold(log).slot, Fold(Take(blank, log, step)).slot;
            SameModel(s, t) || t.provider.None? || t.model.None? || Curated(step.catalog, t)
  {
    var r := Handle(blank, step.catalog, Fold(log), step.command);
    if r.Ok? {
      FoldNext(log, r.value);
    }
  }

  /** Every decision model in use was curated when it was introduced, however the catalog rotated
      since. */
  lemma {:induction false} CuratedWhenIntroduced(blank: string -> bool, logs: seq<seq<Event>>, steps: seq<Step>, i: nat)
    requires Run(blank, logs, steps) && i < |logs| && Fold(logs[i]).slot != EMPTY_SLOT
    ensures exists j :: Introduced(logs, steps, j, i)
  {
    RunGood(blank, logs, steps, i);
    if i > 0 {
      StepCurates(blank, logs[i - 1], steps[i - 1]);
      if Curated(steps[i - 1].catalog, Fold(logs[i]).slot) {
        assert Introduced(logs, steps, i - 1, i);
      } else {
        CuratedWhenIntroduced(blank, logs, steps, i - 1);
        var j :| Introduced(logs, steps, j, i - 1);
        assert Introduced(logs, steps, j, i);
      }
    }
  }
}
