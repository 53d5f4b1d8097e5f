/** What a workflow run publishes, when it succeeds, and what it leaves in the plugin
    registry, in terms of the registrations and of the opaque calls alone. */
module WorkflowRuns {
  import opened Prelude
  import opened EventBus
  import opened Workflow

  // ---- The conditions ----

  /** One of those in `raising` listens to the topic or to everything. */
  ghost predicate Objection(hs: Subscriptions, topic: string, raising: set<Handler>) {
    exists h :: h in raising && ((topic in hs && h in hs[topic]) || ("*" in hs && h in hs["*"]))
  }

  lemma ObjectsMeans(hs: Subscriptions, e: Envelope, raising: set<Handler>)
    ensures Objects(hs, e, raising) <==> Objection(hs, e.topic, raising)
  {
    if Objects(hs, e, raising) {
      var h :| h in Recipients(hs, e.topic) && h in raising;
      assert h in Listeners(hs, e.topic) || h in Listeners(hs, "*");
    }
    if Objection(hs, e.topic, raising) {
      var h :| h in raising && ((e.topic in hs && h in hs[e.topic]) || ("*" in hs && h in hs["*"]));
      assert h in Recipients(hs, e.topic);
    }
  }

  predicate Known(g: Registry, plugin: string) {
    plugin in g.manifests || plugin in g.allowlist
  }

  /** A plugin has the permissions of its manifest; a legacy plugin may only execute. */
  predicate Granted(g: Registry, plugin: string, permission: string) {
    if plugin in g.manifests then permission in g.manifests[plugin].permissions
    else plugin in g.allowlist && permission == "plugin:execute"
  }

  /** The plugin passed its check and nobody stood in the way of its call. */
  ghost predicate Entered(g: Registry, hs: Subscriptions, plugin: string, permission: string, w: StepOracle) {
    Granted(g, plugin, permission) && !Objection(hs, "plugin.pre_execute", w.first) && !w.preHookRaises
  }

  predicate Runnable(g: Registry, plugin: string) {
    plugin in g.sdkPlugins || g.hasLegacyExecutor
  }

  ghost predicate AgentRan(g: Registry, hs: Subscriptions, agent: string, w: StepOracle) {
    agent in g.agents && !Objection(hs, "agent.started", w.first) && w.reply.Mapping?
  }

  ghost predicate PluginRan(g: Registry, hs: Subscriptions, plugin: string, permission: string, w: StepOracle) {
    Entered(g, hs, plugin, permission, w) && Runnable(g, plugin) && w.reply.Mapping?
  }

  ghost predicate StepSucceeds(g: Registry, hs: Subscriptions, s: WorkflowStep, w: StepOracle) {
    && !w.beforeRaises && !w.afterRaises
    && s.kind in {"event", "agent", "plugin", "noop"}
    && (s.kind == "event" ==> !Objection(hs, s.target, w.first))
    && (s.kind == "agent" ==> AgentRan(g, hs, s.target, w) && !Objection(hs, "agent.completed", w.second))
    && (s.kind == "plugin" ==>
          && s.config.argsAreList && PluginRan(g, hs, s.target, s.config.requiredPermission, w)
          && !Objection(hs, "plugin.post_execute", w.second) && !w.postHookRaises)
  }

  /** The permission check of a plugin step is reached. */
  predicate AsksForPlugin(s: WorkflowStep, w: StepOracle) {
    !w.beforeRaises && s.kind == "plugin" && s.config.argsAreList
  }

  // ---- The calls ----

  lemma EventNames()
    ensures STARTED == Envelope("workflow.started", "workflow-engine")
    ensures COMPLETED == Envelope("workflow.completed", "workflow-engine")
    ensures AGENT_STARTED == Envelope("agent.started", "agent-framework")
    ensures AGENT_COMPLETED == Envelope("agent.completed", "agent-framework")
    ensures PLUGIN_PRE == Envelope("plugin.pre_execute", "plugin-framework")
    ensures PLUGIN_POST == Envelope("plugin.post_execute", "plugin-framework")
  {
  }

  /** An agent announces completion only when its handler returned a mapping. */
  lemma AgentOutcome(g: Registry, hs: Subscriptions, agent: string, w: StepOracle)
    ensures var t := AgentTrace(g, hs, agent, w);
            && (t.events != [] <==> agent in g.agents)
            && (AGENT_COMPLETED in t.events <==> AgentRan(g, hs, agent, w))
            && t.events <= [AGENT_STARTED, AGENT_COMPLETED]
            && (t.error == Some(UnknownAgent) <==> agent !in g.agents)
            && (t.error == None <==> AgentRan(g, hs, agent, w) && !Objection(hs, "agent.completed", w.second))
            && (t.error.Some? ==> t.error.value in {UnknownAgent, Foreign})
  {
    ObjectsMeans(hs, AGENT_STARTED, w.first);
    ObjectsMeans(hs, AGENT_COMPLETED, w.second);
    assert "agent.started"[6] == 's' && "agent.completed"[6] == 'c';
  }

  /** Nothing is published and nothing runs without the required permission; each
      error has exactly one cause. */
  lemma PluginOutcome(g: Registry, hs: Subscriptions, plugin: string, permission: string, w: StepOracle)
    ensures var t := PluginTrace(g, hs, plugin, permission, w);
            var entered := Entered(g, hs, plugin, permission, w);
            var ran := PluginRan(g, hs, plugin, permission, w);
            && (t.events != [] <==> Granted(g, plugin, permission))
            && (PLUGIN_POST in t.events <==> ran)
            && t.events <= [PLUGIN_PRE, PLUGIN_POST]
            && (t.error == Some(NotInAllowlist) <==> !Known(g, plugin))
            && (t.error == Some(PermissionDenied) <==> Known(g, plugin) && !Granted(g, plugin, permission))
            && (t.error == Some(NoExecutor) <==> entered && !Runnable(g, plugin))
            && (t.error == Some(PluginFailed) <==> entered && Runnable(g, plugin) && w.reply.Raises?)
            && (t.error == None <==> ran && !Objection(hs, "plugin.post_execute", w.second) && !w.postHookRaises)
            && (t.error.Some? ==>
                  t.error.value in {NotInAllowlist, PermissionDenied, NoExecutor, PluginFailed, Foreign})
  {
    ObjectsMeans(hs, PLUGIN_PRE, w.first);
    ObjectsMeans(hs, PLUGIN_POST, w.second);
    assert "plugin.pre_execute"[8] == 'r' && "plugin.post_execute"[8] == 'o';
  }

  /** When a step succeeds, and the cause of each of the engine's own errors. */
  lemma StepOutcome(g: Registry, hs: Subscriptions, workflow: string, s: WorkflowStep, w: StepOracle)
    ensures var t := StepTrace(g, hs, workflow, s, w);
            && (t.error == None <==> StepSucceeds(g, hs, s, w))
            && (t.events != [] <==>
                  && !w.beforeRaises
                  && (s.kind == "event" || (s.kind == "agent" && s.target in g.agents)
                      || (AsksForPlugin(s, w) && Granted(g, s.target, s.config.requiredPermission))))
            && (t.error == Some(UnsupportedKind) <==>
                  !w.beforeRaises && s.kind !in {"event", "agent", "plugin", "noop"})
            && (t.error == Some(ArgsNotAList) <==> !w.beforeRaises && s.kind == "plugin" && !s.config.argsAreList)
            && (t.error == Some(UnknownAgent) <==> !w.beforeRaises && s.kind == "agent" && s.target !in g.agents)
            && (t.error == Some(NotInAllowlist) <==> AsksForPlugin(s, w) && !Known(g, s.target))
            && (t.error == Some(PermissionDenied) <==>
                  AsksForPlugin(s, w) && Known(g, s.target) && !Granted(g, s.target, s.config.requiredPermission))
  {
    hide Entered, PluginRan, AgentRan, Objection, Granted, PluginTrace, AgentTrace, Objects;
    ObjectsMeans(hs, Envelope(s.target, "workflow:" + workflow), w.first);
    AgentOutcome(g, hs, s.target, w);
    PluginOutcome(g, hs, s.target, s.config.requiredPermission, w);
  }

  // ---- The plan ----

  /** What a step publishes when nothing goes wrong. */
  function Publishes(workflow: string, s: WorkflowStep): seq<Envelope> {
    if s.kind == "event" then [Envelope(s.target, "workflow:" + workflow)]
    else if s.kind == "agent" then [AGENT_STARTED, AGENT_COMPLETED]
    else if s.kind == "plugin" then [PLUGIN_PRE, PLUGIN_POST]
    else []
  }

  function Plan(workflow: string, steps: seq<WorkflowStep>): seq<Envelope> {
    if steps == [] then [] else Plan(workflow, steps[..|steps|-1]) + Publishes(workflow, steps[|steps|-1])
  }

  /** A trace that stays on a plan: a prefix of it, all of it without an error,
      and without the engine's own completed event. */
  ghost predicate Follows(t: Trace, plan: seq<Envelope>) {
    && t.events <= plan
    && (t.error.None? ==> t.events == plan)
    && COMPLETED !in plan
  }

  lemma ThenFollows(a: Trace, b: Trace, p: seq<Envelope>, q: seq<Envelope>)
    requires Follows(a, p) && Follows(b, q)
    ensures Follows(a.Then(b), p + q)
  {
  }

  lemma StepFollows(g: Registry, hs: Subscriptions, workflow: string, s: WorkflowStep, w: StepOracle)
    ensures Follows(StepTrace(g, hs, workflow, s, w), Publishes(workflow, s))
  {
    assert ("workflow:" + workflow)[8] == ':' && "workflow-engine"[8] == '-';
    assert "agent-framework"[0] == 'a' && "workflow-engine"[0] == 'w' && "plugin-framework"[0] == 'p';
  }

  lemma {:induction false} StepsFollow(g: Registry, hs: Subscriptions, d: Definition, world: nat -> StepOracle, n: nat)
    requires n <= |d.steps|
    ensures Follows(StepsTrace(g, hs, d, world, n), Plan(d.name, d.steps[..n]))
  {
    if n > 0 {
      StepsFollow(g, hs, d, world, n - 1);
      StepFollows(g, hs, d.name, d.steps[n-1], world(n - 1));
      assert d.steps[..n][..n-1] == d.steps[..n-1];
      ThenFollows(StepsTrace(g, hs, d, world, n - 1), StepTrace(g, hs, d.name, d.steps[n-1], world(n - 1)),
                  Plan(d.name, d.steps[..n-1]), Publishes(d.name, d.steps[n-1]));
    }
  }

  lemma {:induction false} StepsSucceedIff(g: Registry, hs: Subscriptions, d: Definition, world: nat -> StepOracle,
      n: nat)
    requires n <= |d.steps|
    ensures StepsTrace(g, hs, d, world, n).error == None
            <==> forall i :: 0 <= i < n ==> StepSucceeds(g, hs, d.steps[i], world(i))
  {
    if n > 0 {
      StepsSucceedIff(g, hs, d, world, n - 1);
      StepOutcome(g, hs, d.name, d.steps[n-1], world(n - 1));
    }
  }

  // ---- Runs ----

  /** Every run publishes a prefix of started, the steps' events in order, completed;
      the whole of it exactly when no subscriber objected to the start and every
      step succeeded. */
  lemma {:induction false} RunFollowsPlan(g: Registry, hs: Subscriptions, d: Definition,
      atStart: set<Handler>, world: nat -> StepOracle, atEnd: set<Handler>)
    ensures var t := RunTrace(g, hs, d, atStart, world, atEnd);
            var plan := [STARTED] + Plan(d.name, d.steps) + [COMPLETED];
            var stepsDone := && !Objection(hs, "workflow.started", atStart)
                             && forall i :: 0 <= i < |d.steps| ==> StepSucceeds(g, hs, d.steps[i], world(i));
            && t.events <= plan
            && (COMPLETED in t.events <==> stepsDone)
            && (t.events == plan <==> stepsDone)
            && (t.error == None <==> stepsDone && !Objection(hs, "workflow.completed", atEnd))
  {
    var steps := StepsTrace(g, hs, d, world, |d.steps|);
    ObjectsMeans(hs, STARTED, atStart);
    ObjectsMeans(hs, COMPLETED, atEnd);
    StepsFollow(g, hs, d, world, |d.steps|);
    StepsSucceedIff(g, hs, d, world, |d.steps|);
    assert d.steps[..|d.steps|] == d.steps;
    assert "workflow.started"[9] == 's' && "workflow.completed"[9] == 'c';
    var t := RunTrace(g, hs, d, atStart, world, atEnd);
    var opening := if Objects(hs, STARTED, atStart) then [] else steps.events;
    assert opening <= Plan(d.name, d.steps) && COMPLETED !in opening;
    if COMPLETED in t.events {
      assert t.events == [STARTED] + steps.events + [COMPLETED];
    } else {
      assert t.events == [STARTED] + opening;
    }
  }

  /** A run without an error had every permission it asked for, and ran no plugin
      that is neither registered nor on the allowlist. */
  lemma {:induction false} RunHadPermission(g: Registry, hs: Subscriptions, d: Definition,
      atStart: set<Handler>, world: nat -> StepOracle, atEnd: set<Handler>, i: nat)
    requires RunTrace(g, hs, d, atStart, world, atEnd).error == None
    requires i < |d.steps| && d.steps[i].kind == "plugin"
    ensures Granted(g, d.steps[i].target, d.steps[i].config.requiredPermission) && Known(g, d.steps[i].target)
  {
    RunFollowsPlan(g, hs, d, atStart, world, atEnd);
    assert StepSucceeds(g, hs, d.steps[i], world(i));
  }

  /** When step i is the first to fail, the run is the start, the complete traces
      of the steps before i, and what step i published; later steps play no part. */
  lemma {:induction false} FailureStopsTheRun(g: Registry, hs: Subscriptions, d: Definition,
                           atStart: set<Handler>, world: nat -> StepOracle, atEnd: set<Handler>, i: nat)
    requires i < |d.steps| && !Objects(hs, STARTED, atStart)
    requires StepsTrace(g, hs, d, world, i).error.None?
    requires StepTrace(g, hs, d.name, d.steps[i], world(i)).error.Some?
    ensures var failed := StepTrace(g, hs, d.name, d.steps[i], world(i));
            RunTrace(g, hs, d, atStart, world, atEnd)
            == Trace([STARTED] + (StepsTrace(g, hs, d, world, i).events + failed.events), failed.error)
  {
    FailureEndsSteps(g, hs, d, world, i + 1, |d.steps|);
  }

  // ---- The registry ----

  /** Step `i` is reached and resolves the allow-listed plugin `p`. */
  ghost predicate Uses(g: Registry, hs: Subscriptions, d: Definition, world: nat -> StepOracle, i: nat, p: string)
    requires i < |d.steps|
  {
    && (forall k :: 0 <= k < i ==> StepSucceeds(g, hs, d.steps[k], world(k)))
    && AsksForPlugin(d.steps[i], world(i)) && d.steps[i].target == p && p in g.allowlist
  }

  lemma StepRegisters(g: Registry, s: WorkflowStep, w: StepOracle)
    ensures var legacy := Manifest(s.target, "0.1.0-legacy", "legacy", {"plugin:execute"});
            StepRegistry(g, s, w)
            == if AsksForPlugin(s, w) && s.target in g.allowlist && s.target !in g.manifests
               then g.(manifests := g.manifests[s.target := legacy]) else g
  {
  }

  ghost predicate UsedBefore(g: Registry, hs: Subscriptions, d: Definition, world: nat -> StepOracle, n: nat, p: string)
    requires n <= |d.steps|
  {
    exists i :: 0 <= i < n && Uses(g, hs, d, world, i, p)
  }

  lemma NothingUsedYet(g: Registry, hs: Subscriptions, d: Definition, world: nat -> StepOracle, p: string)
    ensures !UsedBefore(g, hs, d, world, 0, p)
  {
  }

  lemma UsedOneMore(g: Registry, hs: Subscriptions, d: Definition, world: nat -> StepOracle, n: nat, p: string)
    requires 0 < n <= |d.steps|
    ensures UsedBefore(g, hs, d, world, n, p) <==>
              || UsedBefore(g, hs, d, world, n - 1, p)
              || (&& StepsTrace(g, hs, d, world, n - 1).error == None
                  && AsksForPlugin(d.steps[n-1], world(n - 1)) && d.steps[n-1].target == p && p in g.allowlist)
  {
    hide StepSucceeds, StepsTrace;
    StepsSucceedIff(g, hs, d, world, n - 1);
    assert UsedBefore(g, hs, d, world, n, p) <==>
             UsedBefore(g, hs, d, world, n - 1, p) || Uses(g, hs, d, world, n - 1, p);
  }

  /** The steps of a run register exactly the legacy plugins they come to use, each
      with the permission to execute and no other, and change nothing else. */
  lemma {:induction false} RegistryAfterSteps(g: Registry, hs: Subscriptions, d: Definition,
      world: nat -> StepOracle, n: nat, p: string)
    requires n <= |d.steps|
    ensures var h := StepsRegistry(g, hs, d, world, n);
            && h == g.(manifests := h.manifests)
            && (p in g.manifests ==> p in h.manifests && h.manifests[p] == g.manifests[p])
            && (p !in g.manifests ==>
                  && (p in h.manifests <==> UsedBefore(g, hs, d, world, n, p))
                  && (p in h.manifests ==>
                        h.manifests[p] == Manifest(p, "0.1.0-legacy", "legacy", {"plugin:execute"})))
  {
    hide StepRegistry, UsedBefore, StepTrace;
    if n > 0 {
      RegistryAfterSteps(g, hs, d, world, n - 1, p);
      UsedOneMore(g, hs, d, world, n, p);
      StepRegisters(StepsRegistry(g, hs, d, world, n - 1), d.steps[n-1], world(n - 1));
      if StepsTrace(g, hs, d, world, n - 1).error.Some? { FailureEndsSteps(g, hs, d, world, n - 1, n); }
    } else {
      NothingUsedYet(g, hs, d, world, p);
    }
  }
}
