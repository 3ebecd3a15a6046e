/** Delegated authority: the capability grant and the loop limits a child run receives, and the
    checks both parent and child go through before a tool runs. */
module Delegation {
  import opened Basics

  const AGENT_DELEGATE := "agent.delegate"
  const BROWSER_SNAPSHOT := "browser.snapshot"
  const FIXTURE_WRITE := "fixture.write_file"
  const FIXTURE_ROOT := "fixture://phase3/workspace"
  const CREATE_FILE := "workspace.create_file"
  const REPLACE_FILE := "workspace.replace_file"
  const MANAGE_PATH := "workspace.manage_path"
  const PROCESS_RUN := "process.run"

  datatype EffectClass = ReadOnly | Idempotent | NonIdempotent
  datatype Profile = Observe | WorkspaceWrite

  datatype Grant = Grant(
    tools: set<string>, effectClasses: set<EffectClass>, workspaceRoots: set<string>, writableRoots: set<string>,
    destinations: set<string>, executables: set<string>, secrets: set<string>, profiles: set<Profile>,
    maximumDelegated: nat)

  predicate StartsWith(s: string, prefix: string) {
    prefix <= s
  }

  function WorkspaceRoot(id: string): string {
    "workspace://" + id + "/"
  }

  // ----- Checks ------------------------------------------------------------------------------------

  datatype Descriptor = Descriptor(toolId: string, effectClass: string)

  /** The parts of the arguments the checks look at. */
  datatype Arguments = Arguments(workspaceId: Option<string>, url: Option<string>, commandId: Option<string>,
                                 validDelegation: bool)

  /** Deployment facts: which URLs a set of destinations covers, and the configured write runtime. */
  datatype Runtime = Runtime(covers: (string, set<string>) -> bool, isFixture: bool, workspaceIds: set<string>,
                             commandDigest: string -> Option<string>)

  predicate ReadDescriptorAuthorized(d: Descriptor, g: Grant) {
    && d.effectClass == "read_only"
    && d.toolId in g.tools
    && ReadOnly in g.effectClasses
    && Observe in g.profiles
    && (if d.toolId == "fixture.read" then g.workspaceRoots == {} && g.destinations == {} && g.secrets == {}
        else if StartsWith(d.toolId, "workspace.") then g.workspaceRoots != {}
        else if StartsWith(d.toolId, "web.") || d.toolId == BROWSER_SNAPSHOT then g.destinations != {}
        else if StartsWith(d.toolId, "mcp.") || d.toolId == "skill.read_resource" then true
        else d.toolId == AGENT_DELEGATE && g.maximumDelegated > 0)
  }

  predicate ReadArgumentsAuthorized(r: Runtime, d: Descriptor, a: Arguments, g: Grant) {
    && ReadDescriptorAuthorized(d, g)
    && (if StartsWith(d.toolId, "workspace.") then a.workspaceId.Some? && WorkspaceRoot(a.workspaceId.value) in g.workspaceRoots
        else if d.toolId == "web.fetch" || d.toolId == BROWSER_SNAPSHOT then a.url.Some? && r.covers(a.url.value, g.destinations)
        else if d.toolId == "web.search" then (exists x :: x in g.destinations && StartsWith(x, "search:")) && g.secrets != {}
        else if d.toolId == AGENT_DELEGATE then g.maximumDelegated > 0 && a.validDelegation
        else true)
  }

  predicate GovernedWriteAuthorized(r: Runtime, toolId: string, g: Grant) {
    if r.isFixture then
      && toolId == FIXTURE_WRITE
      && FIXTURE_WRITE in g.tools && Idempotent in g.effectClasses && WorkspaceWrite in g.profiles
      && FIXTURE_ROOT in g.workspaceRoots
    else
      && toolId in g.tools
      && (if toolId == CREATE_FILE || toolId == REPLACE_FILE then Idempotent in g.effectClasses
          else (toolId == MANAGE_PATH || toolId == PROCESS_RUN) && NonIdempotent in g.effectClasses
               && (toolId != PROCESS_RUN || g.executables != {}))
      && WorkspaceWrite in g.profiles
      && g.writableRoots != {}
      && forall id :: id in r.workspaceIds ==> WorkspaceRoot(id) in g.writableRoots
  }

  predicate GovernedWriteArgumentsAuthorized(r: Runtime, toolId: string, a: Arguments, g: Grant) {
    && GovernedWriteAuthorized(r, toolId, g)
    && (r.isFixture ||
        (&& a.workspaceId.Some? && WorkspaceRoot(a.workspaceId.value) in g.writableRoots
         && a.workspaceId.value in r.workspaceIds
         && (toolId != PROCESS_RUN ||
             (a.commandId.Some? && var digest := r.commandDigest(a.commandId.value); digest.Some? && digest.value in g.executables))))
  }

  // ----- The child's grant -----------------------------------------------------------------------------

  predicate Delegable(tool: string) {
    || tool == "workspace.list" || tool == "workspace.stat" || tool == "workspace.read" || tool == "workspace.search"
    || tool == "skill.read_resource" || tool == "web.fetch" || tool == "web.search" || tool == BROWSER_SNAPSHOT
  }

  function ChildGrant(parent: Grant): Grant {
    var tools := set t | t in parent.tools && Delegable(t);
    var hasWorkspace := exists t :: t in tools && StartsWith(t, "workspace.");
    var hasWeb := exists t :: t in tools && (StartsWith(t, "web.") || t == BROWSER_SNAPSHOT);
    Grant(tools,
          if ReadOnly in parent.effectClasses then {ReadOnly} else {},
          if hasWorkspace then parent.workspaceRoots else {},
          {},
          if hasWeb then parent.destinations else {},
          {},
          if "web.search" in tools then parent.secrets else {},
          if Observe in parent.profiles then {Observe} else {},
          0)
  }

  /** `CapabilityGrant::contains`. */
  predicate Contains(parent: Grant, child: Grant) {
    && child.tools <= parent.tools
    && child.effectClasses <= parent.effectClasses
    && child.workspaceRoots <= parent.workspaceRoots
    && child.writableRoots <= parent.writableRoots
    && child.destinations <= parent.destinations
    && child.executables <= parent.executables
    && child.secrets <= parent.secrets
    && child.profiles <= parent.profiles
    && child.maximumDelegated <= parent.maximumDelegated
  }

  /** `CapabilityGrant::intersect_for_child`: what the store finally grants. */
  function IntersectForChild(parent: Grant, requested: Grant, policy: Grant): Grant {
    Grant(parent.tools * requested.tools * policy.tools,
          parent.effectClasses * requested.effectClasses * policy.effectClasses,
          parent.workspaceRoots * requested.workspaceRoots * policy.workspaceRoots,
          parent.writableRoots * requested.writableRoots * policy.writableRoots,
          parent.destinations * requested.destinations * policy.destinations,
          parent.executables * requested.executables * policy.executables,
          parent.secrets * requested.secrets * policy.secrets,
          parent.profiles * requested.profiles * policy.profiles,
          Min(Min(if parent.maximumDelegated == 0 then 0 else parent.maximumDelegated - 1,
                  requested.maximumDelegated), policy.maximumDelegated))
  }

  /** The three-way intersection is the greatest grant below all three, with one delegation slot
      spent. */
  lemma IntersectionGreatest(parent: Grant, requested: Grant, policy: Grant, g: Grant)
    ensures var child := IntersectForChild(parent, requested, policy);
            && Contains(parent, child) && Contains(requested, child) && Contains(policy, child)
            && (&& Contains(parent, g) && Contains(requested, g) && Contains(policy, g)
                && (g.maximumDelegated < parent.maximumDelegated || g.maximumDelegated == 0)
                ==> Contains(child, g))
            && (parent.maximumDelegated > 0 ==> child.maximumDelegated < parent.maximumDelegated)
  {
  }

  /** The store grants exactly what the driver asked for: it is within the parent's grant. */
  lemma ChildGrantedWhole(parent: Grant)
    ensures Contains(parent, ChildGrant(parent))
    ensures IntersectForChild(parent, ChildGrant(parent), ChildGrant(parent)) == ChildGrant(parent)
  {
  }

  lemma ChildKeeps(parent: Grant, tool: string)
    ensures tool in ChildGrant(parent).tools <==> tool in parent.tools && Delegable(tool)
    ensures tool in ChildGrant(parent).tools && StartsWith(tool, "workspace.") ==>
              ChildGrant(parent).workspaceRoots == parent.workspaceRoots
    ensures tool in ChildGrant(parent).tools && (StartsWith(tool, "web.") || tool == BROWSER_SNAPSHOT) ==>
              ChildGrant(parent).destinations == parent.destinations
    ensures tool in ChildGrant(parent).tools && tool == "web.search" ==> ChildGrant(parent).secrets == parent.secrets
  {
  }

  /** A child may read exactly what its parent may read with a delegable tool, down to the
      arguments. */
  lemma ChildReadsIff(r: Runtime, d: Descriptor, a: Arguments, parent: Grant)
    ensures ReadDescriptorAuthorized(d, ChildGrant(parent)) <==> ReadDescriptorAuthorized(d, parent) && Delegable(d.toolId)
    ensures ReadArgumentsAuthorized(r, d, a, ChildGrant(parent)) <==>
            ReadArgumentsAuthorized(r, d, a, parent) && Delegable(d.toolId)
  {
    hide ChildGrant;
    ChildKeeps(parent, d.toolId);
    ChildRights(parent);
  }

  lemma ChildRights(parent: Grant)
    ensures var child := ChildGrant(parent);
            && (ReadOnly in child.effectClasses <==> ReadOnly in parent.effectClasses)
            && (Observe in child.profiles <==> Observe in parent.profiles)
            && child.effectClasses <= {ReadOnly} && child.profiles <= {Observe}
            && child.writableRoots == {} && child.executables == {} && child.maximumDelegated == 0
  {
  }

  /** A child can neither write, nor run a process, nor delegate, whatever its parent could and
      however the deployment is configured; nor can any grant within the child's. */
  lemma ChildNeverWrites(r: Runtime, toolId: string, a: Arguments, d: Descriptor, parent: Grant, g: Grant)
    requires Contains(ChildGrant(parent), g)
    ensures !GovernedWriteArgumentsAuthorized(r, toolId, a, g)
    ensures d.toolId == AGENT_DELEGATE ==> !ReadDescriptorAuthorized(d, g)
  {
  }

  /** Delegating again narrows nothing further. */
  lemma ChildOfChild(parent: Grant)
    ensures ChildGrant(ChildGrant(parent)) == ChildGrant(parent)
  {
    var child := ChildGrant(parent);
    var grandchild := ChildGrant(child);
    assert grandchild.tools == child.tools;
    if exists t :: t in child.tools && StartsWith(t, "workspace.") {
      var t :| t in child.tools && StartsWith(t, "workspace.");
      ChildKeeps(child, t);
    }
    if exists t :: t in child.tools && (StartsWith(t, "web.") || t == BROWSER_SNAPSHOT) {
      var t :| t in child.tools && (StartsWith(t, "web.") || t == BROWSER_SNAPSHOT);
      ChildKeeps(child, t);
    }
  }

  // ----- The child's limits ------------------------------------------------------------------------------

  datatype Limits = Limits(
    modelCalls: nat, toolCalls: nat, retries: nat, delegatedRuns: nat, inputTokens: nat, outputTokens: nat, cost: nat,
    outputBytes: nat, wallTime: nat, providerTimeout: nat, toolTimeout: nat, inlineBytes: nat, artifactBytes: nat)

  /** `AgentLoopLimits::validate`. */
  predicate ValidLimits(l: Limits) {
    && l.modelCalls > 0 && l.inputTokens > 0 && l.outputTokens > 0 && l.outputBytes > 0 && l.wallTime > 0
    && l.providerTimeout > 0 && l.toolTimeout > 0 && l.inlineBytes > 0
    && l.inlineBytes <= l.artifactBytes <= l.outputBytes
    && l.providerTimeout <= l.wallTime && l.toolTimeout <= l.wallTime
  }

  function ChildLimits(p: Limits): Limits {
    var inlineBytes := Min(p.inlineBytes, 4 * 1024);
    var artifactBytes := Max(Min(p.artifactBytes, 1024 * 1024), inlineBytes);
    var outputBytes := Max(Min(p.outputBytes, 1024 * 1024), artifactBytes);
    var wallTime := Min(p.wallTime, 90_000);
    Limits(Min(p.modelCalls, 3), Min(p.toolCalls, 2), Min(p.retries, 1), 0, Min(p.inputTokens, 16_384),
           Min(p.outputTokens, 2_048), Min(p.cost, 250_000), outputBytes, wallTime, Min(p.providerTimeout, wallTime),
           Min(p.toolTimeout, wallTime), inlineBytes, artifactBytes)
  }

  predicate LimitsWithin(a: Limits, b: Limits) {
    && a.modelCalls <= b.modelCalls && a.toolCalls <= b.toolCalls && a.retries <= b.retries
    && a.delegatedRuns <= b.delegatedRuns && a.inputTokens <= b.inputTokens && a.outputTokens <= b.outputTokens
    && a.cost <= b.cost && a.outputBytes <= b.outputBytes && a.wallTime <= b.wallTime
    && a.providerTimeout <= b.providerTimeout && a.toolTimeout <= b.toolTimeout && a.inlineBytes <= b.inlineBytes
    && a.artifactBytes <= b.artifactBytes
  }

  /** A valid parent's child is valid and within it in every column. In general the child exceeds
      its parent exactly when the parent's byte limits are out of order below the child's caps; the
      child's own are always ordered, and narrowing twice is narrowing once. */
  lemma ChildLimitsIff(p: Limits)
    ensures ValidLimits(p) ==> ValidLimits(ChildLimits(p)) && LimitsWithin(ChildLimits(p), p)
    ensures LimitsWithin(ChildLimits(p), p) <==>
            Min(p.inlineBytes, 4 * 1024) <= p.artifactBytes
            && Max(Min(p.artifactBytes, 1024 * 1024), Min(p.inlineBytes, 4 * 1024)) <= p.outputBytes
    ensures ChildLimits(ChildLimits(p)) == ChildLimits(p)
    ensures var c := ChildLimits(p);
            c.inlineBytes <= c.artifactBytes <= c.outputBytes && c.providerTimeout <= c.wallTime && c.toolTimeout <= c.wallTime
  {
  }
}
