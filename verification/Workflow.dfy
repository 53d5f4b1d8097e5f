/** Workflow runs over the event bus, agents and plugins.  Everything opaque --
    subscribers, hooks, agent handlers, plugin executors -- is an oracle that
    says whether the call raises; none of them publishes or subscribes itself. */
module Workflow {
  import opened Prelude
  import opened EventBus

  datatype Error =
    | UnknownWorkflow | UnknownAgent | UnsupportedKind | ArgsNotAList
    | NotInAllowlist | PermissionDenied | NoExecutor | PluginFailed | Foreign

  datatype StepConfig = StepConfig(argsAreList: bool, requiredPermission: string)
  datatype WorkflowStep = WorkflowStep(id: string, kind: string, target: string, config: StepConfig)
  datatype Definition = Definition(name: string, version: string, steps: seq<WorkflowStep>)
  datatype Manifest = Manifest(name: string, version: string, runtime: string, permissions: set<string>)

  /** What `str.strip` removes, among ASCII characters. */
  const BLANKS: set<char> := {' ', '\t', '\n', '\r', '\U{0b}', '\U{0c}', '\U{1c}', '\U{1d}', '\U{1e}', '\U{1f}'}

  const EXECUTE := "plugin:execute"

  /** How an agent or plugin call ends; what is not a mapping is returned before
      anyone notices, and fails where the caller looks into it. */
  datatype Reply = Mapping | NotAMapping | Raises

  /** What the opaque code does during one step: which subscribers raise on its
      first and second event, which hooks raise, and how the call ends. */
  datatype StepOracle = StepOracle(
    beforeRaises: bool, first: set<Handler>, preHookRaises: bool, reply: Reply,
    second: set<Handler>, postHookRaises: bool, afterRaises: bool)

  /** Registered agents and plugins, and the legacy executor's allowlist. */
  datatype Registry = Registry(
    agents: set<string>, manifests: map<string, Manifest>, sdkPlugins: set<string>,
    allowlist: set<string>, hasLegacyExecutor: bool)

  type Subscriptions = map<string, seq<Handler>>

  // ---- Traces ----

  /** What a piece of a run publishes, and how it ends. */
  datatype Trace = Trace(events: seq<Envelope>, error: Option<Error>)
  {
    /** An error ends the run; nothing after it happens. */
    function Then(next: Trace): Trace {
      if error.Some? then this else Trace(events + next.events, next.error)
    }
  }

  const STARTED := Envelope("workflow.started", "workflow-engine")
  const COMPLETED := Envelope("workflow.completed", "workflow-engine")
  const AGENT_STARTED := Envelope("agent.started", "agent-framework")
  const AGENT_COMPLETED := Envelope("agent.completed", "agent-framework")
  const PLUGIN_PRE := Envelope("plugin.pre_execute", "plugin-framework")
  const PLUGIN_POST := Envelope("plugin.post_execute", "plugin-framework")

  predicate Objects(hs: Subscriptions, e: Envelope, raising: set<Handler>) {
    exists h :: h in Recipients(hs, e.topic) && h in raising
  }

  function Emit(hs: Subscriptions, e: Envelope, raising: set<Handler>): Trace {
    Trace([e], if Objects(hs, e, raising) then Some(Foreign) else None)
  }

  function LegacyManifest(plugin: string): Manifest {
    Manifest(plugin, "0.1.0-legacy", "legacy", {EXECUTE})
  }

  function Resolve(g: Registry, plugin: string): Option<Manifest> {
    if plugin in g.manifests then Some(g.manifests[plugin])
    else if plugin in g.allowlist then Some(LegacyManifest(plugin))
    else None
  }

  function AgentTrace(g: Registry, hs: Subscriptions, agent: string, w: StepOracle): Trace {
    if agent !in g.agents then Trace([], Some(UnknownAgent))
    else if Objects(hs, AGENT_STARTED, w.first) || !w.reply.Mapping? then Trace([AGENT_STARTED], Some(Foreign))
    else Trace([AGENT_STARTED, AGENT_COMPLETED], Emit(hs, AGENT_COMPLETED, w.second).error)
  }

  function PluginTrace(g: Registry, hs: Subscriptions, plugin: string, permission: string, w: StepOracle): Trace {
    var m := Resolve(g, plugin);
    if m.None? then Trace([], Some(NotInAllowlist))
    else if permission !in m.value.permissions then Trace([], Some(PermissionDenied))
    else if Objects(hs, PLUGIN_PRE, w.first) || w.preHookRaises then Trace([PLUGIN_PRE], Some(Foreign))
    else if plugin !in g.sdkPlugins && !g.hasLegacyExecutor then Trace([PLUGIN_PRE], Some(NoExecutor))
    else if w.reply.Raises? then Trace([PLUGIN_PRE], Some(PluginFailed))
    else if w.reply.NotAMapping? then Trace([PLUGIN_PRE], Some(Foreign))
    else Trace([PLUGIN_PRE, PLUGIN_POST],
               if Objects(hs, PLUGIN_POST, w.second) || w.postHookRaises then Some(Foreign) else None)
  }

  function ExecuteTrace(g: Registry, hs: Subscriptions, workflow: string, s: WorkflowStep, w: StepOracle): Trace {
    if s.kind == "event" then Emit(hs, Envelope(s.target, "workflow:" + workflow), w.first)
    else if s.kind == "agent" then AgentTrace(g, hs, s.target, w)
    else if s.kind == "plugin" then
      if !s.config.argsAreList then Trace([], Some(ArgsNotAList))
      else PluginTrace(g, hs, s.target, s.config.requiredPermission, w)
    else Trace([], if s.kind == "noop" then None else Some(UnsupportedKind))
  }

  function StepTrace(g: Registry, hs: Subscriptions, workflow: string, s: WorkflowStep, w: StepOracle): Trace {
    if w.beforeRaises then Trace([], Some(Foreign))
    else ExecuteTrace(g, hs, workflow, s, w).Then(Trace([], if w.afterRaises then Some(Foreign) else None))
  }

  function StepsTrace(g: Registry, hs: Subscriptions, d: Definition, world: nat -> StepOracle, n: nat): Trace
    requires n <= |d.steps|
  {
    if n == 0 then Trace([], None)
    else StepsTrace(g, hs, d, world, n - 1).Then(StepTrace(g, hs, d.name, d.steps[n-1], world(n - 1)))
  }

  function RunTrace(g: Registry, hs: Subscriptions, d: Definition,
                    atStart: set<Handler>, world: nat -> StepOracle, atEnd: set<Handler>): Trace {
    Emit(hs, STARTED, atStart).Then(StepsTrace(g, hs, d, world, |d.steps|)).Then(Emit(hs, COMPLETED, atEnd))
  }

  // ---- Legacy plugins are registered on first use ----

  /** The registry with every legacy plugin registered in advance. */
  function Filled(g: Registry): Registry {
    g.(manifests := map p | p in g.manifests.Keys + g.allowlist :: Resolve(g, p).value)
  }

  /** Two registries that differ only in which legacy plugins were used so far. */
  predicate SameAnswers(g: Registry, h: Registry) {
    Filled(g) == Filled(h)
  }

  lemma FilledResolves(g: Registry, plugin: string)
    ensures Resolve(Filled(g), plugin) == Resolve(g, plugin)
  {
  }

  /** Registering legacy plugins on first use never changes what a step does. */
  lemma SameAnswersSameTrace(g: Registry, h: Registry, hs: Subscriptions, workflow: string, s: WorkflowStep,
      w: StepOracle)
    requires SameAnswers(g, h)
    ensures StepTrace(g, hs, workflow, s, w) == StepTrace(h, hs, workflow, s, w)
  {
    FilledResolves(g, s.target);
    FilledResolves(h, s.target);
    assert g.agents == Filled(g).agents && g.sdkPlugins == Filled(g).sdkPlugins;
    assert g.hasLegacyExecutor == Filled(g).hasLegacyExecutor;
  }

  /** Resolving an allow-listed plugin without a manifest gives it one. */
  function Registered(g: Registry, plugin: string): Registry {
    if plugin !in g.manifests && plugin in g.allowlist
    then g.(manifests := g.manifests[plugin := LegacyManifest(plugin)]) else g
  }

  function ExecuteRegistry(g: Registry, s: WorkflowStep): Registry {
    if s.kind == "plugin" && s.config.argsAreList then Registered(g, s.target) else g
  }

  function StepRegistry(g: Registry, s: WorkflowStep, w: StepOracle): Registry {
    if w.beforeRaises then g else ExecuteRegistry(g, s)
  }

  function StepsRegistry(g: Registry, hs: Subscriptions, d: Definition, world: nat -> StepOracle, n: nat): Registry
    requires n <= |d.steps|
  {
    if n == 0 then g
    else
      var before := StepsRegistry(g, hs, d, world, n - 1);
      if StepsTrace(g, hs, d, world, n - 1).error.Some? then before
      else StepRegistry(before, d.steps[n-1], world(n - 1))
  }

  function RunRegistry(g: Registry, hs: Subscriptions, d: Definition, atStart: set<Handler>,
      world: nat -> StepOracle): Registry {
    if Objects(hs, STARTED, atStart) then g else StepsRegistry(g, hs, d, world, |d.steps|)
  }

  lemma {:induction false} FailureEndsSteps(g: Registry, hs: Subscriptions, d: Definition,
      world: nat -> StepOracle, i: nat, n: nat)
    requires i <= n <= |d.steps|
    ensures StepsTrace(g, hs, d, world, i).error.Some? ==>
              && StepsTrace(g, hs, d, world, n) == StepsTrace(g, hs, d, world, i)
              && StepsRegistry(g, hs, d, world, n) == StepsRegistry(g, hs, d, world, i)
    decreases n - i
  {
    hide StepTrace, StepRegistry;
    if i < n {
      FailureEndsSteps(g, hs, d, world, i, n - 1);
    }
  }

  lemma RegisteredAnswersAlike(g: Registry, plugin: string)
    ensures SameAnswers(g, Registered(g, plugin))
  {
    assert Filled(g).manifests == Filled(Registered(g, plugin)).manifests;
  }

  // ---- The engine ----

  function StepIds(steps: seq<WorkflowStep>): seq<string> {
    seq(|steps|, i requires 0 <= i < |steps| => steps[i].id)
  }

  lemma AppendAssociates(a: seq<Envelope>, b: seq<Envelope>, c: seq<Envelope>)
    ensures (a + b) + c == a + (b + c)
  {
  }

  lemma OneMoreStep(g: Registry, h: Registry, hs: Subscriptions, d: Definition, world: nat -> StepOracle, i: nat)
    requires i < |d.steps| && SameAnswers(g, h) && StepsTrace(g, hs, d, world, i).error.None?
    ensures var step := StepTrace(h, hs, d.name, d.steps[i], world(i));
            StepsTrace(g, hs, d, world, i + 1) == Trace(StepsTrace(g, hs, d, world, i).events + step.events, step.error)
  {
    SameAnswersSameTrace(g, h, hs, d.name, d.steps[i], world(i));
  }

  class WorkflowEngine {
    const bus: AsyncEventBus
    var workflows: map<string, Definition>
    var registry: Registry

    constructor (bus: AsyncEventBus, registry: Registry)
      ensures this.bus == bus && this.registry == registry && workflows == map[]
    {
      this.bus, this.registry, workflows := bus, registry, map[];
    }

    method RegisterWorkflow(d: Definition) returns (accepted: bool)
      modifies this`workflows
      ensures accepted <==> exists i :: 0 <= i < |d.name| && d.name[i] !in BLANKS
      ensures workflows == if accepted then old(workflows)[d.name := d] else old(workflows)
    {
      accepted := exists i :: 0 <= i < |d.name| && d.name[i] !in BLANKS;
      if accepted { workflows := workflows[d.name := d]; }
    }

    method Publishing(e: Envelope, raising: set<Handler>) returns (error: Option<Error>)
      requires bus.Valid()
      modifies bus`recent, bus`log
      ensures bus.Valid() && bus.log == old(bus.log) + [e]
      ensures error == Emit(bus.handlers, e, raising).error
    {
      var _, raised := bus.Publish(e.topic, e.source, raising);
      error := if raised then Some(Foreign) else None;
    }

    method RunAgent(agent: string, w: StepOracle) returns (error: Option<Error>)
      requires bus.Valid()
      modifies bus`recent, bus`log
      ensures bus.Valid()
      ensures var t := AgentTrace(registry, bus.handlers, agent, w);
              bus.log == old(bus.log) + t.events && error == t.error
    {
      if agent !in registry.agents { return Some(UnknownAgent); }
      error := Publishing(AGENT_STARTED, w.first);
      if error.Some? { return; }
      if w.reply.Raises? { return Some(Foreign); }
      if w.reply.NotAMapping? { return Some(Foreign); }
      error := Publishing(AGENT_COMPLETED, w.second);
    }

    /** An allow-listed plugin without a manifest is registered on first use. */
    method ResolveManifest(plugin: string) returns (m: Option<Manifest>)
      modifies this`registry
      ensures m == Resolve(old(registry), plugin)
      ensures registry == Registered(old(registry), plugin) && SameAnswers(old(registry), registry)
    {
      RegisteredAnswersAlike(registry, plugin);
      if plugin in registry.manifests { return Some(registry.manifests[plugin]); }
      if plugin in registry.allowlist {
        var legacy := LegacyManifest(plugin);
        registry := registry.(manifests := registry.manifests[plugin := legacy]);
        return Some(legacy);
      }
      m := None;
    }

    method RunPlugin(plugin: string, permission: string, w: StepOracle) returns (error: Option<Error>)
      requires bus.Valid()
      modifies this`registry, bus`recent, bus`log
      ensures bus.Valid() && SameAnswers(old(registry), registry)
      ensures registry == Registered(old(registry), plugin)
      ensures var t := PluginTrace(old(registry), bus.handlers, plugin, permission, w);
              bus.log == old(bus.log) + t.events && error == t.error
    {
      var m := ResolveManifest(plugin);
      if m.None? { return Some(NotInAllowlist); }
      if permission !in m.value.permissions { return Some(PermissionDenied); }
      error := Publishing(PLUGIN_PRE, w.first);
      if error.Some? { return; }
      if w.preHookRaises { return Some(Foreign); }
      if plugin !in registry.sdkPlugins && !registry.hasLegacyExecutor { return Some(NoExecutor); }
      if w.reply.Raises? { return Some(PluginFailed); }
      if w.reply.NotAMapping? { return Some(Foreign); }
      error := Publishing(PLUGIN_POST, w.second);
      if error.Some? { return; }
      if w.postHookRaises { return Some(Foreign); }
    }

    method ExecuteStep(workflow: string, s: WorkflowStep, w: StepOracle) returns (error: Option<Error>)
      requires bus.Valid()
      modifies this`registry, bus`recent, bus`log
      ensures bus.Valid() && SameAnswers(old(registry), registry)
      ensures registry == ExecuteRegistry(old(registry), s)
      ensures var t := ExecuteTrace(old(registry), bus.handlers, workflow, s, w);
              bus.log == old(bus.log) + t.events && error == t.error
    {
      if s.kind == "event" {
        error := Publishing(Envelope(s.target, "workflow:" + workflow), w.first);
      } else if s.kind == "agent" {
        error := RunAgent(s.target, w);
      } else if s.kind == "plugin" {
        if !s.config.argsAreList { return Some(ArgsNotAList); }
        error := RunPlugin(s.target, s.config.requiredPermission, w);
      } else {
        error := if s.kind == "noop" then None else Some(UnsupportedKind);
      }
    }

    /** One round of the engine's loop: hook, step, hook. */
    method OneStep(workflow: string, s: WorkflowStep, w: StepOracle) returns (error: Option<Error>)
      requires bus.Valid()
      modifies this`registry, bus`recent, bus`log
      ensures bus.Valid() && SameAnswers(old(registry), registry)
      ensures registry == StepRegistry(old(registry), s, w)
      ensures var t := StepTrace(old(registry), bus.handlers, workflow, s, w);
              bus.log == old(bus.log) + t.events && error == t.error
    {
      if w.beforeRaises { return Some(Foreign); }
      error := ExecuteStep(workflow, s, w);
      if error.Some? { return; }
      if w.afterRaises { return Some(Foreign); }
    }

    /** The loop over the steps; a failure leaves it at once. */
    method RunSteps(d: Definition, world: nat -> StepOracle) returns (error: Option<Error>, results: seq<string>)
      requires bus.Valid()
      modifies this`registry, bus`recent, bus`log
      ensures bus.Valid() && SameAnswers(old(registry), registry)
      ensures registry == StepsRegistry(old(registry), bus.handlers, d, world, |d.steps|)
      ensures var t := StepsTrace(old(registry), bus.handlers, d, world, |d.steps|);
              bus.log == old(bus.log) + t.events && error == t.error
      ensures error.None? ==> results == StepIds(d.steps)
    {
      hide StepTrace, StepRegistry, Filled;
      results := [];
      ghost var g, hs, log, ids := registry, bus.handlers, bus.log, StepIds(d.steps);
      for i := 0 to |d.steps|
        invariant bus.Valid() && SameAnswers(g, registry)
        invariant registry == StepsRegistry(g, hs, d, world, i)
        invariant bus.log == log + StepsTrace(g, hs, d, world, i).events
        invariant StepsTrace(g, hs, d, world, i).error.None?
        invariant results == ids[..i]
      {
        var s, w := d.steps[i], world(i);
        OneMoreStep(g, registry, hs, d, world, i);
        AppendAssociates(log, StepsTrace(g, hs, d, world, i).events, StepTrace(registry, hs, d.name, s, w).events);
        error := OneStep(d.name, s, w);
        if error.Some? {
          FailureEndsSteps(g, hs, d, world, i + 1, |d.steps|);
          return;
        }
        results := results + [s.id];
        assert ids[..i+1] == ids[..i] + [s.id];
      }
      assert ids[..|d.steps|] == ids;
      error := None;
    }

    method RunWorkflow(name: string, atStart: set<Handler>, world: nat -> StepOracle, atEnd: set<Handler>)
      returns (error: Option<Error>, results: seq<string>)
      requires bus.Valid()
      modifies this`registry, bus`recent, bus`log
      ensures bus.Valid() && SameAnswers(old(registry), registry)
      ensures name !in workflows ==>
                error == Some(UnknownWorkflow) && bus.log == old(bus.log) && registry == old(registry)
      ensures name in workflows ==>
                var t := RunTrace(old(registry), bus.handlers, workflows[name], atStart, world, atEnd);
                && bus.log == old(bus.log) + t.events && error == t.error
                && registry == RunRegistry(old(registry), bus.handlers, workflows[name], atStart, world)
      ensures error.None? ==> name in workflows && results == StepIds(workflows[name].steps)
    {
      results := [];
      if name !in workflows { return Some(UnknownWorkflow), []; }
      error := Publishing(STARTED, atStart);
      if error.Some? { return; }
      ghost var steps := StepsTrace(registry, bus.handlers, workflows[name], world, |workflows[name].steps|).events;
      error, results := RunSteps(workflows[name], world);
      AppendAssociates(old(bus.log), [STARTED], steps);
      if error.Some? { return; }
      error := Publishing(COMPLETED, atEnd);
    }
  }
}
